/** ArticleService: the admin writes on articles. Every public method is
    one transaction, so a method that raises leaves the store as it was. */
module ArticleService {
  import opened Common
  import opened Model
  import opened Overlays
  import JavaString
  import TranslationTaskService

  /** The admin form (ArticleCreateDTO); `tagIds` and `translations` are
      null when the form leaves them out. */
  datatype ArticleCreateDTO = ArticleCreateDTO(
    title: string, slug: Str, excerpt: Str, body: Str,
    categoryId: int, authorId: int, tagIds: Option<set<int>>,
    cardEmoji: Str, coverImageUrl: Str, coverImageCredit: Str,
    status: Str, academic: Option<bool>, featured: Option<bool>,
    publishedDate: Option<int>, readingTimeMinutes: Option<int>,
    metaTitle: Str, metaDescription: Str,
    translations: Option<seq<TranslationDTO<ArticleTranslation>>>)

  function ArticleNotFound(id: int): string {
    "Article not found: " + JavaString.IntToString(id)
  }

  function CategoryNotFound(id: int): string {
    "Category not found: " + JavaString.IntToString(id)
  }

  function AuthorNotFound(id: int): string {
    "Author not found: " + JavaString.IntToString(id)
  }

  /** existsBySlug */
  predicate SlugTaken(articles: map<int, Article>, slug: string) {
    exists id :: id in articles && articles[id].slug == slug
  }

  /** findAllById: the requested tags that exist; no list, no tags. */
  function FoundTags(tags: map<int, Tag>, ids: Option<set<int>>): (r: set<int>)
    ensures r <= tags.Keys
    ensures forall t :: t in r <==> ids.Some? && t in ids.value && t in tags
  {
    if ids.None? then {} else ids.value * tags.Keys
  }

  /** The status a form asks for on create: DRAFT when it names none. */
  function InitialStatus(s: Str): Result<ArticleStatus> {
    if s.None? then Ok(DRAFT) else ParseArticleStatus(s)
  }

  /** The publication-date rule: a PUBLISHED article without a date is
      dated today; any other date is kept. */
  function PublishDefault(status: ArticleStatus, date: Option<int>, today: int): (d: Option<int>)
    ensures status == PUBLISHED ==> d.Some?
    ensures date.Some? ==> d == date
    ensures status != PUBLISHED ==> d == date
    ensures d.Some? && date.None? ==> d == Some(today)
  {
    if status == PUBLISHED && date.None? then Some(today) else date
  }

  /** create as a function of the database: the chosen slug must be free,
      the category and author must exist, the status name must parse and
      every submitted language must be a Language; the errors are raised
      in that order. */
  function NewArticle(db: Db, dto: ArticleCreateDTO, slugify: string -> string, today: int): (r: Result<Article>)
    ensures var slug := ChosenSlug(dto.slug, dto.title, slugify);
      r.Ok? <==> !SlugTaken(db.articles, slug) && dto.categoryId in db.categories && dto.authorId in db.authors
                 && (dto.status.None? || ParseArticleStatus(dto.status).Ok?)
                 && AllLanguagesValid(Submitted(dto.translations))
    ensures var slug := ChosenSlug(dto.slug, dto.title, slugify);
      SlugTaken(db.articles, slug) ==> r == Err(SlugAlreadyExists(slug))
    ensures !SlugTaken(db.articles, ChosenSlug(dto.slug, dto.title, slugify)) && dto.categoryId !in db.categories ==>
      r == Err(NotFound(CategoryNotFound(dto.categoryId)))
    ensures !SlugTaken(db.articles, ChosenSlug(dto.slug, dto.title, slugify)) && dto.categoryId in db.categories
            && dto.authorId !in db.authors ==>
      r == Err(NotFound(AuthorNotFound(dto.authorId)))
    ensures r.Ok? ==>
      var a := r.value;
      && a.slug == ChosenSlug(dto.slug, dto.title, slugify) && a.title == Some(dto.title)
      && a.excerpt == dto.excerpt && a.body == dto.body
      && a.categoryId == dto.categoryId && a.authorId == dto.authorId && a.tags == FoundTags(db.tags, dto.tagIds)
      && a.cardEmoji == dto.cardEmoji && a.coverImageUrl == dto.coverImageUrl && a.coverImageCredit == dto.coverImageCredit
      && (dto.status.None? ==> a.status == DRAFT)
      && (dto.status.Some? ==> ArticleStatusName(a.status) == dto.status.value)
      && a.academic == (dto.academic == Some(true)) && a.featured == (dto.featured == Some(true))
      && (a.status == PUBLISHED ==> a.publishedDate.Some?)
      && (dto.publishedDate.Some? ==> a.publishedDate == dto.publishedDate)
      && (a.status != PUBLISHED ==> a.publishedDate == dto.publishedDate)
      && (a.status == PUBLISHED && dto.publishedDate.None? ==> a.publishedDate == Some(today))
      && a.readingTimeMinutes == dto.readingTimeMinutes
      && a.metaTitle == dto.metaTitle && a.metaDescription == dto.metaDescription
      && SaveAll(map[], Submitted(dto.translations)) == Ok(a.translations)
  {
    SaveAllSpec(map[], Submitted(dto.translations));
    var slug := ChosenSlug(dto.slug, dto.title, slugify);
    if SlugTaken(db.articles, slug) then Err(SlugAlreadyExists(slug))
    else if dto.categoryId !in db.categories then Err(NotFound(CategoryNotFound(dto.categoryId)))
    else if dto.authorId !in db.authors then Err(NotFound(AuthorNotFound(dto.authorId)))
    else match InitialStatus(dto.status)
      case Err(e) => Err(e)
      case Ok(status) =>
        match SaveAll(map[], Submitted(dto.translations))
        case Err(e) => Err(e)
        case Ok(overlays) =>
          Ok(Article(
            Some(dto.title), slug, dto.excerpt, dto.body, dto.categoryId, dto.authorId,
            FoundTags(db.tags, dto.tagIds), dto.cardEmoji, dto.coverImageUrl, dto.coverImageCredit,
            status, dto.academic == Some(true), dto.featured == Some(true),
            PublishDefault(status, dto.publishedDate, today), dto.readingTimeMinutes,
            dto.metaTitle, dto.metaDescription, overlays))
  }

  /** The status update asks for: the form's status when it names one,
      else the current one. */
  function UpdateStatus(s: Str, current: ArticleStatus): Result<ArticleStatus> {
    if s.None? then Ok(current) else ParseArticleStatus(s)
  }

  /** update as a function of the database: the article must exist; a slug
      is refused only when it differs from the article's own and is taken;
      then the category, author, status and languages, as on create. */
  function UpdatedArticle(db: Db, id: int, dto: ArticleCreateDTO, slugify: string -> string, today: int): (r: Result<Article>)
  {
    if id !in db.articles then Err(NotFound(ArticleNotFound(id)))
    else
      var a := db.articles[id];
      var slug := ChosenSlug(dto.slug, dto.title, slugify);
      if slug != a.slug && SlugTaken(db.articles, slug) then Err(SlugAlreadyExists(slug))
      else if dto.categoryId !in db.categories then Err(NotFound(CategoryNotFound(dto.categoryId)))
      else if dto.authorId !in db.authors then Err(NotFound(AuthorNotFound(dto.authorId)))
      else match UpdateStatus(dto.status, a.status)
        case Err(e) => Err(e)
        case Ok(status) =>
          match SaveAll(a.translations, Submitted(dto.translations))
          case Err(e) => Err(e)
          case Ok(overlays) =>
            var date := if dto.publishedDate.Some? then dto.publishedDate else a.publishedDate;
            Ok(Article(
              Some(dto.title), slug, dto.excerpt, dto.body, dto.categoryId, dto.authorId,
              if dto.tagIds.None? then a.tags else FoundTags(db.tags, dto.tagIds),
              dto.cardEmoji, dto.coverImageUrl, dto.coverImageCredit, status,
              if dto.academic.None? then a.academic else dto.academic.value,
              if dto.featured.None? then a.featured else dto.featured.value,
              PublishDefault(status, date, today), dto.readingTimeMinutes,
              dto.metaTitle, dto.metaDescription, overlays))
  }

  /** What update does: the article must exist; a slug is refused only
      when it differs from the article's own and is taken; then the
      category, author, status and languages are checked as on create. The
      form's fields replace the article's, except that a null tag list,
      status, academic, featured or date keeps the current value. */
  lemma UpdateSpec(db: Db, id: int, dto: ArticleCreateDTO, slugify: string -> string, today: int)
    ensures id !in db.articles ==> UpdatedArticle(db, id, dto, slugify, today) == Err(NotFound(ArticleNotFound(id)))
    ensures id in db.articles ==>
      var slug := ChosenSlug(dto.slug, dto.title, slugify);
      (UpdatedArticle(db, id, dto, slugify, today).Ok? <==>
         (slug == db.articles[id].slug || !SlugTaken(db.articles, slug))
         && dto.categoryId in db.categories && dto.authorId in db.authors
         && (dto.status.None? || ParseArticleStatus(dto.status).Ok?)
         && AllLanguagesValid(Submitted(dto.translations)))
    ensures id in db.articles ==>
      var slug := ChosenSlug(dto.slug, dto.title, slugify);
      (slug != db.articles[id].slug && SlugTaken(db.articles, slug) <==>
         UpdatedArticle(db, id, dto, slugify, today) == Err(SlugAlreadyExists(slug)))
    ensures UpdatedArticle(db, id, dto, slugify, today).Ok? ==>
      var a, b := db.articles[id], UpdatedArticle(db, id, dto, slugify, today).value;
      && b.slug == ChosenSlug(dto.slug, dto.title, slugify) && b.title == Some(dto.title)
      && b.excerpt == dto.excerpt && b.body == dto.body
      && b.categoryId == dto.categoryId && b.authorId == dto.authorId
      && b.tags == (if dto.tagIds.None? then a.tags else FoundTags(db.tags, dto.tagIds))
      && b.cardEmoji == dto.cardEmoji && b.coverImageUrl == dto.coverImageUrl && b.coverImageCredit == dto.coverImageCredit
      && (dto.status.None? ==> b.status == a.status)
      && (dto.status.Some? ==> ArticleStatusName(b.status) == dto.status.value)
      && b.academic == (if dto.academic.None? then a.academic else dto.academic.value)
      && b.featured == (if dto.featured.None? then a.featured else dto.featured.value)
      && (dto.publishedDate.Some? ==> b.publishedDate == dto.publishedDate)
      && (dto.publishedDate.None? && a.publishedDate.Some? ==> b.publishedDate == a.publishedDate)
      && (b.status == PUBLISHED ==> b.publishedDate.Some?)
      && (dto.publishedDate.None? && a.publishedDate.None? ==>
            b.publishedDate == (if b.status == PUBLISHED then Some(today) else None))
      && b.readingTimeMinutes == dto.readingTimeMinutes
      && b.metaTitle == dto.metaTitle && b.metaDescription == dto.metaDescription
      && SaveAll(a.translations, Submitted(dto.translations)) == Ok(b.translations)
  {
    if id in db.articles {
      SaveAllSpec(db.articles[id].translations, Submitted(dto.translations));
    }
  }

  /** An update that keeps the article's own slug is never refused for it,
      even though that slug exists. */
  lemma UnchangedSlugNeverConflicts(db: Db, id: int, dto: ArticleCreateDTO, slugify: string -> string, today: int)
    requires id in db.articles && ChosenSlug(dto.slug, dto.title, slugify) == db.articles[id].slug
    ensures UpdatedArticle(db, id, dto, slugify, today) != Err(SlugAlreadyExists(db.articles[id].slug))
  {
  }

  /** changeStatus: the named status (valueOf, so null or an unknown name
      raises) and the publication-date rule; nothing else changes. */
  function ChangedStatus(articles: map<int, Article>, id: int, status: Str, today: int): (r: Result<Article>)
    ensures id !in articles ==> r == Err(NotFound(ArticleNotFound(id)))
    ensures id in articles ==> (r.Ok? <==> ParseArticleStatus(status).Ok?)
    ensures r.Ok? ==> ArticleStatusName(r.value.status) == status.value
    ensures r.Ok? ==> r.value.status == PUBLISHED ==> r.value.publishedDate.Some?
    ensures r.Ok? ==> articles[id].publishedDate.Some? ==> r.value.publishedDate == articles[id].publishedDate
    ensures r.Ok? ==> articles[id].publishedDate.None? ==>
      r.value.publishedDate == (if r.value.status == PUBLISHED then Some(today) else None)
    ensures r.Ok? ==> r.value.(status := articles[id].status, publishedDate := articles[id].publishedDate) == articles[id]
  {
    if id !in articles then Err(NotFound(ArticleNotFound(id)))
    else match ParseArticleStatus(status)
      case Err(e) => Err(e)
      case Ok(s) =>
        var a := articles[id];
        Ok(a.(status := s, publishedDate := PublishDefault(s, a.publishedDate, today)))
  }

  /** The articles findByFeaturedTrueAndStatus(PUBLISHED) matches. */
  function FeaturedPublished(articles: map<int, Article>): (r: set<int>)
    ensures forall j :: j in r <==> j in articles && articles[j].featured && articles[j].status == PUBLISHED
  {
    set j | j in articles && articles[j].featured && articles[j].status == PUBLISHED
  }

  /** Every featured published article with its flag cleared. */
  function Unfeatured(articles: map<int, Article>): (r: map<int, Article>)
    ensures r.Keys == articles.Keys
    ensures forall j :: j in articles ==>
      r[j] == (if j in FeaturedPublished(articles) then articles[j].(featured := false) else articles[j])
  {
    map j | j in articles :: if j in FeaturedPublished(articles) then articles[j].(featured := false) else articles[j]
  }

  /** toggleFeatured: turning an article's flag on first clears the flag of
      the featured published article (a single-result query, so two such
      articles make it raise); then the article's flag is flipped. */
  function Toggled(articles: map<int, Article>, id: int): (r: Result<map<int, Article>>)
    ensures id !in articles ==> r == Err(NotFound(ArticleNotFound(id)))
    ensures id in articles ==>
      (r.Err? <==> !articles[id].featured && |FeaturedPublished(articles)| > 1)
      && (r.Err? ==> r.error == IncorrectResultSize)
    ensures r.Ok? ==> r.value.Keys == articles.Keys && r.value[id] == articles[id].(featured := !articles[id].featured)
    ensures r.Ok? ==> forall j :: j in articles && j != id ==>
      r.value[j] == articles[j]
      || (!articles[id].featured && j in FeaturedPublished(articles) && r.value[j] == articles[j].(featured := false))
    ensures r.Ok? && !articles[id].featured ==> FeaturedPublished(r.value) <= {id}
  {
    if id !in articles then Err(NotFound(ArticleNotFound(id)))
    else
      var a := articles[id];
      var current := FeaturedPublished(articles);
      if !a.featured && |current| > 1 then Err(IncorrectResultSize)
      else
        var cleared := if a.featured then articles else Unfeatured(articles);
        Ok(cleared[id := a.(featured := !a.featured)])
  }

  /** At most one featured published article stays at most one. */
  lemma {:induction false} ToggleKeepsSingleFeatured(articles: map<int, Article>, id: int)
    requires id in articles && |FeaturedPublished(articles)| <= 1
    ensures Toggled(articles, id).Ok?
    ensures |FeaturedPublished(Toggled(articles, id).value)| <= 1
  {
    var r := Toggled(articles, id).value;
    if articles[id].featured {
      assert FeaturedPublished(r) <= FeaturedPublished(articles) - {id};
      SubsetSize(FeaturedPublished(r), FeaturedPublished(articles) - {id});
    } else {
      SubsetSize(FeaturedPublished(r), {id});
    }
  }

  lemma SubsetSize(a: set<int>, b: set<int>)
    requires a <= b
    ensures |a| <= |b|
  {
    assert b == a + (b - a);
  }

  /** delete: a hard delete removes the article, a soft one archives it;
      nothing else changes. */
  function Deleted(articles: map<int, Article>, id: int, hard: bool): (r: Result<map<int, Article>>)
    ensures id !in articles ==> r == Err(NotFound(ArticleNotFound(id)))
    ensures id in articles ==> r.Ok?
    ensures r.Ok? && hard ==> r.value.Keys == articles.Keys - {id}
    ensures r.Ok? && !hard ==>
      (r.value.Keys == articles.Keys && r.value[id].status == ARCHIVED
       && r.value[id].(status := articles[id].status) == articles[id])
    ensures r.Ok? ==> forall j :: j in r.value && j != id ==> r.value[j] == articles[j]
  {
    if id !in articles then Err(NotFound(ArticleNotFound(id)))
    else if hard then Ok(map j | j in articles && j != id :: articles[j])
    else Ok(articles[id := articles[id].(status := ARCHIVED)])
  }

  // ---------------------------------------------------------------------
  // The transactional methods

  /** A fresh row keeps the store valid when its slug is free and its
      references exist. */
  lemma InsertKeepsValid(db: Db, subscribers: map<int, Subscriber>, nextId: int, a: Article)
    requires DbValid(db) && IdsBelow(db, subscribers, nextId)
    requires !SlugTaken(db.articles, a.slug)
    requires a.categoryId in db.categories && a.authorId in db.authors && a.tags <= db.tags.Keys
    ensures DbValid(db.(articles := db.articles[nextId := a]))
    ensures IdsBelow(db.(articles := db.articles[nextId := a]), subscribers, nextId + 1)
  {
  }

  /** Replacing a row keeps the store valid when its slug is its old one or
      free and its references exist. */
  lemma ReplaceKeepsValid(db: Db, subscribers: map<int, Subscriber>, nextId: int, id: int, a: Article)
    requires DbValid(db) && IdsBelow(db, subscribers, nextId) && id in db.articles
    requires a.slug == db.articles[id].slug || !SlugTaken(db.articles, a.slug)
    requires a.categoryId in db.categories && a.authorId in db.authors && a.tags <= db.tags.Keys
    ensures DbValid(db.(articles := db.articles[id := a]))
    ensures IdsBelow(db.(articles := db.articles[id := a]), subscribers, nextId)
  {
  }

  /** The part of create before the first write: the checks, the entity
      the builder makes, the date rule and the overlays. */
  method BuildArticle(st: Store, dto: ArticleCreateDTO, slugify: string -> string, today: int) returns (r: Result<Article>)
    ensures r == NewArticle(st.Snapshot(), dto, slugify, today)
  {
    var slug := ChosenSlug(dto.slug, dto.title, slugify);
    if SlugTaken(st.articles, slug) {
      return Err(SlugAlreadyExists(slug));
    }
    if dto.categoryId !in st.categories {
      return Err(NotFound(CategoryNotFound(dto.categoryId)));
    }
    if dto.authorId !in st.authors {
      return Err(NotFound(AuthorNotFound(dto.authorId)));
    }
    var status := DRAFT;
    if dto.status.Some? {
      var parsed := ParseArticleStatus(dto.status);
      if parsed.Err? {
        return Err(parsed.error);
      }
      status := parsed.value;
    }
    var article := Article(
      Some(dto.title), slug, dto.excerpt, dto.body, dto.categoryId, dto.authorId,
      FoundTags(st.tags, dto.tagIds), dto.cardEmoji, dto.coverImageUrl, dto.coverImageCredit,
      status, dto.academic == Some(true), dto.featured == Some(true),
      dto.publishedDate, dto.readingTimeMinutes, dto.metaTitle, dto.metaDescription, map[]);
    if article.status == PUBLISHED && article.publishedDate.None? {
      article := article.(publishedDate := Some(today));
    }
    var overlays := SaveOverlays(map[], Submitted(dto.translations));
    if overlays.Err? {
      return Err(overlays.error);
    }
    r := Ok(article.(translations := overlays.value));
  }

  /** create: the article is inserted under the next id with its overlays,
      PT and EN tasks are opened for it, and a translation run from DE is
      dispatched. */
  method Create(st: Store, dto: ArticleCreateDTO, slugify: string -> string, today: int) returns (r: Result<int>)
    requires st.Valid()
    modifies st
    ensures st.Valid()
    ensures NewArticle(old(st.Snapshot()), dto, slugify, today).Err? ==>
      r == Err(NewArticle(old(st.Snapshot()), dto, slugify, today).error) && unchanged(st)
    ensures NewArticle(old(st.Snapshot()), dto, slugify, today).Ok? ==>
      var id := old(st.nextId);
      && r == Ok(id)
      && st.articles == old(st.articles)[id := NewArticle(old(st.Snapshot()), dto, slugify, today).value]
      && TranslationTaskService.Ledger(st.tasks, st.nextId)
         == TranslationTaskService.CreateTasks(TranslationTaskService.Ledger(old(st.tasks), id + 1), ARTICLE, id)
      && st.jobs == old(st.jobs) + [TranslateJob(ARTICLE, id, DEFAULT)]
      && st.categories == old(st.categories) && st.authors == old(st.authors) && st.tags == old(st.tags)
      && st.subscribers == old(st.subscribers) && st.outbox == old(st.outbox)
  {
    var built := BuildArticle(st, dto, slugify, today);
    if built.Err? {
      return Err(built.error);
    }
    var id := InsertArticle(st, built.value);
    r := Ok(id);
  }

  /** save, createTasksForEntity and translateArticle for a checked entity. */
  method InsertArticle(st: Store, article: Article) returns (id: int)
    requires st.Valid()
    requires !SlugTaken(st.articles, article.slug)
    requires article.categoryId in st.categories && article.authorId in st.authors && article.tags <= st.tags.Keys
    modifies st
    ensures st.Valid()
    ensures id == old(st.nextId) && st.articles == old(st.articles)[id := article]
    ensures TranslationTaskService.Ledger(st.tasks, st.nextId)
         == TranslationTaskService.CreateTasks(TranslationTaskService.Ledger(old(st.tasks), id + 1), ARTICLE, id)
    ensures st.jobs == old(st.jobs) + [TranslateJob(ARTICLE, id, DEFAULT)]
    ensures st.categories == old(st.categories) && st.authors == old(st.authors) && st.tags == old(st.tags)
    ensures st.subscribers == old(st.subscribers) && st.outbox == old(st.outbox)
  {
    InsertKeepsValid(st.Snapshot(), st.subscribers, st.nextId, article);
    id := st.FreshId();
    st.articles := st.articles[id := article];
    TranslationTaskService.CreateTasksKeepValid(st.Snapshot(), st.subscribers, st.nextId, ARTICLE, id);
    TranslationTaskService.CreateTasksForEntity(st, ARTICLE, id);
    st.jobs := st.jobs + [TranslateJob(ARTICLE, id, DEFAULT)];
  }

  /** The part of update before the save: the checks and the setters. */
  method BuildUpdate(st: Store, id: int, dto: ArticleCreateDTO, slugify: string -> string, today: int) returns (r: Result<Article>)
    ensures r == UpdatedArticle(st.Snapshot(), id, dto, slugify, today)
  {
    ghost var spec := UpdatedArticle(st.Snapshot(), id, dto, slugify, today);
    if id !in st.articles {
      return Err(NotFound(ArticleNotFound(id)));
    }
    var article := st.articles[id];
    var newSlug := ChosenSlug(dto.slug, dto.title, slugify);
    if newSlug != article.slug && SlugTaken(st.articles, newSlug) {
      return Err(SlugAlreadyExists(newSlug));
    }
    if dto.categoryId !in st.categories {
      return Err(NotFound(CategoryNotFound(dto.categoryId)));
    }
    if dto.authorId !in st.authors {
      return Err(NotFound(AuthorNotFound(dto.authorId)));
    }
    var tags := article.tags;
    if dto.tagIds.Some? {
      tags := FoundTags(st.tags, dto.tagIds);
    }
    var status := article.status;
    if dto.status.Some? {
      var parsed := ParseArticleStatus(dto.status);
      if parsed.Err? {
        return Err(parsed.error);
      }
      status := parsed.value;
    }
    var academic := if dto.academic.Some? then dto.academic.value else article.academic;
    var featured := if dto.featured.Some? then dto.featured.value else article.featured;
    var date := if dto.publishedDate.Some? then dto.publishedDate else article.publishedDate;
    if status == PUBLISHED && date.None? {
      date := Some(today);
    }
    assert UpdateStatus(dto.status, article.status) == Ok(status);
    var overlays := SaveOverlays(article.translations, Submitted(dto.translations));
    if overlays.Err? {
      return Err(overlays.error);
    }
    r := Ok(Article(
      Some(dto.title), newSlug, dto.excerpt, dto.body, dto.categoryId, dto.authorId, tags,
      dto.cardEmoji, dto.coverImageUrl, dto.coverImageCredit, status, academic, featured,
      date, dto.readingTimeMinutes, dto.metaTitle, dto.metaDescription, overlays.value));
  }

  /** update: the article takes the form's fields and overlays; a
      translation run is dispatched, but no task is opened. */
  method Update(st: Store, id: int, dto: ArticleCreateDTO, slugify: string -> string, today: int) returns (r: Result<int>)
    requires st.Valid()
    modifies st
    ensures st.Valid()
    ensures UpdatedArticle(old(st.Snapshot()), id, dto, slugify, today).Err? ==>
      r == Err(UpdatedArticle(old(st.Snapshot()), id, dto, slugify, today).error) && unchanged(st)
    ensures UpdatedArticle(old(st.Snapshot()), id, dto, slugify, today).Ok? ==>
      && r == Ok(id)
      && st.articles == old(st.articles)[id := UpdatedArticle(old(st.Snapshot()), id, dto, slugify, today).value]
      && st.jobs == old(st.jobs) + [TranslateJob(ARTICLE, id, DEFAULT)]
      && st.tasks == old(st.tasks) && st.nextId == old(st.nextId)
      && st.categories == old(st.categories) && st.authors == old(st.authors) && st.tags == old(st.tags)
      && st.subscribers == old(st.subscribers) && st.outbox == old(st.outbox)
  {
    var built := BuildUpdate(st, id, dto, slugify, today);
    if built.Err? {
      return Err(built.error);
    }
    UpdateSpec(st.Snapshot(), id, dto, slugify, today);
    ReplaceKeepsValid(st.Snapshot(), st.subscribers, st.nextId, id, built.value);
    st.articles := st.articles[id := built.value];
    st.jobs := st.jobs + [TranslateJob(ARTICLE, id, DEFAULT)];
    r := Ok(id);
  }

  /** changeStatus */
  method ChangeStatus(st: Store, id: int, status: Str, today: int) returns (r: Result<()>)
    requires st.Valid()
    modifies st`articles
    ensures st.Valid()
    ensures ChangedStatus(old(st.articles), id, status, today).Err? ==>
      r == Err(ChangedStatus(old(st.articles), id, status, today).error) && st.articles == old(st.articles)
    ensures ChangedStatus(old(st.articles), id, status, today).Ok? ==>
      r == Ok(()) && st.articles == old(st.articles)[id := ChangedStatus(old(st.articles), id, status, today).value]
  {
    if id !in st.articles {
      return Err(NotFound(ArticleNotFound(id)));
    }
    var article := st.articles[id];
    var parsed := ParseArticleStatus(status);
    if parsed.Err? {
      return Err(parsed.error);
    }
    article := article.(status := parsed.value);
    if article.status == PUBLISHED && article.publishedDate.None? {
      article := article.(publishedDate := Some(today));
    }
    ReplaceKeepsValid(st.Snapshot(), st.subscribers, st.nextId, id, article);
    st.articles := st.articles[id := article];
    r := Ok(());
  }

  /** A set of one element is that element alone. */
  lemma SingletonSet(s: set<int>, x: int)
    requires x in s && |s| == 1
    ensures s == {x}
  {
    assert |s - {x}| == 0;
  }

  /** findByFeaturedTrueAndStatus(PUBLISHED): no match, the one match, or
      the exception a single-result query raises for several. */
  method FindFeaturedPublished(articles: map<int, Article>) returns (r: Result<Option<int>>)
    ensures r.Err? <==> |FeaturedPublished(articles)| > 1
    ensures r.Err? ==> r.error == IncorrectResultSize
    ensures r == Ok(None) <==> FeaturedPublished(articles) == {}
    ensures r.Ok? && r.value.Some? ==> FeaturedPublished(articles) == {r.value.value}
  {
    var current := set j | j in articles && articles[j].featured && articles[j].status == PUBLISHED;
    if |current| == 0 {
      assert current == FeaturedPublished(articles);
      return Ok(None);
    }
    var j := ElementOf(current);
    assert current == FeaturedPublished(articles);
    if |current| > 1 {
      return Err(IncorrectResultSize);
    }
    SingletonSet(current, j);
    r := Ok(Some(j));
  }

  /** Clearing the flag of every featured published article, when there is
      exactly one, clears that one. */
  lemma ClearSingle(articles: map<int, Article>, j: int)
    requires FeaturedPublished(articles) == {j}
    ensures Unfeatured(articles) == articles[j := articles[j].(featured := false)]
  {
  }

  /** The first half of toggling a flag on: the featured published
      article, if there is one, loses its flag. */
  method ClearFeatured(st: Store) returns (r: Result<()>)
    requires st.Valid()
    modifies st`articles
    ensures st.Valid()
    ensures r.Err? <==> |FeaturedPublished(old(st.articles))| > 1
    ensures r.Err? ==> r.error == IncorrectResultSize && st.articles == old(st.articles)
    ensures r.Ok? ==> st.articles == Unfeatured(old(st.articles))
  {
    var current := FindFeaturedPublished(st.articles);
    if current.Err? {
      return Err(IncorrectResultSize);
    }
    if current.value.Some? {
      var j := current.value.value;
      ClearSingle(st.articles, j);
      ReplaceKeepsValid(st.Snapshot(), st.subscribers, st.nextId, j, st.articles[j].(featured := false));
      st.articles := st.articles[j := st.articles[j].(featured := false)];
    } else {
      assert Unfeatured(st.articles) == st.articles;
    }
    r := Ok(());
  }

  /** toggleFeatured */
  method ToggleFeatured(st: Store, id: int) returns (r: Result<()>)
    requires st.Valid()
    modifies st`articles
    ensures st.Valid()
    ensures Toggled(old(st.articles), id).Err? ==>
      r == Err(Toggled(old(st.articles), id).error) && st.articles == old(st.articles)
    ensures Toggled(old(st.articles), id).Ok? ==> r == Ok(()) && st.articles == Toggled(old(st.articles), id).value
  {
    if id !in st.articles {
      return Err(NotFound(ArticleNotFound(id)));
    }
    var article := st.articles[id];
    if !article.featured {
      var cleared := ClearFeatured(st);
      if cleared.Err? {
        return Err(IncorrectResultSize);
      }
    }
    SetFeatured(st, id, !article.featured);
    r := Ok(());
  }

  /** The second half of toggleFeatured: the article takes the new flag. */
  method SetFeatured(st: Store, id: int, featured: bool)
    requires st.Valid() && id in st.articles
    modifies st`articles
    ensures st.Valid()
    ensures st.articles == old(st.articles)[id := old(st.articles)[id].(featured := featured)]
  {
    ReplaceKeepsValid(st.Snapshot(), st.subscribers, st.nextId, id, st.articles[id].(featured := featured));
    st.articles := st.articles[id := st.articles[id].(featured := featured)];
  }

  /** delete */
  method Delete(st: Store, id: int, hard: bool) returns (r: Result<()>)
    requires st.Valid()
    modifies st`articles
    ensures st.Valid()
    ensures Deleted(old(st.articles), id, hard).Err? ==>
      r == Err(Deleted(old(st.articles), id, hard).error) && st.articles == old(st.articles)
    ensures Deleted(old(st.articles), id, hard).Ok? ==> r == Ok(()) && st.articles == Deleted(old(st.articles), id, hard).value
  {
    if id !in st.articles {
      return Err(NotFound(ArticleNotFound(id)));
    }
    if hard {
      st.articles := map j | j in st.articles && j != id :: st.articles[j];
    } else {
      ReplaceKeepsValid(st.Snapshot(), st.subscribers, st.nextId, id, st.articles[id].(status := ARCHIVED));
      st.articles := st.articles[id := st.articles[id].(status := ARCHIVED)];
    }
    r := Ok(());
  }
}
