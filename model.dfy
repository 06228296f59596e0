/** The persistent entities of the blog backend and the repositories that
    hold them. Entities are values; every repository is a map from the
    generated id (or, for tasks, a list) held by one Store object that the
    services update in place. */
module Model {
  import opened Common

  datatype ArticleStatus = DRAFT | PUBLISHED | ARCHIVED

  function ArticleStatusName(s: ArticleStatus): string {
    match s
    case DRAFT => "DRAFT"
    case PUBLISHED => "PUBLISHED"
    case ARCHIVED => "ARCHIVED"
  }

  /** ArticleStatus.valueOf on a possibly-null name. */
  function ParseArticleStatus(s: Str): (r: Result<ArticleStatus>)
    ensures r.Ok? <==> s.Some? && s.value in {"DRAFT", "PUBLISHED", "ARCHIVED"}
    ensures r.Ok? ==> ArticleStatusName(r.value) == s.value
    ensures r.Err? ==> r.error == NullPointer || r.error.IllegalArgument?
  {
    if s.None? then Err(NullPointer)
    else if s.value == "DRAFT" then Ok(DRAFT)
    else if s.value == "PUBLISHED" then Ok(PUBLISHED)
    else if s.value == "ARCHIVED" then Ok(ARCHIVED)
    else Err(IllegalArgument(NoEnumConstant("de.tzr.model.ArticleStatus", s.value)))
  }

  /** TranslationTaskEntityType */
  datatype EntityType = ARTICLE | CATEGORY | AUTHOR | TAG

  function EntityTypeName(t: EntityType): string {
    match t
    case ARTICLE => "ARTICLE"
    case CATEGORY => "CATEGORY"
    case AUTHOR => "AUTHOR"
    case TAG => "TAG"
  }

  /** TranslationTaskStatus */
  datatype TaskStatus = PENDING | IN_PROGRESS | DONE

  function TaskStatusName(s: TaskStatus): string {
    match s
    case PENDING => "PENDING"
    case IN_PROGRESS => "IN_PROGRESS"
    case DONE => "DONE"
  }

  /** TranslationTaskStatus.valueOf on a possibly-null name. */
  function ParseTaskStatus(s: Str): (r: Result<TaskStatus>)
    ensures r.Ok? <==> s.Some? && s.value in {"PENDING", "IN_PROGRESS", "DONE"}
    ensures r.Ok? ==> TaskStatusName(r.value) == s.value
    ensures r.Err? ==> r.error == NullPointer || r.error.IllegalArgument?
  {
    if s.None? then Err(NullPointer)
    else if s.value == "PENDING" then Ok(PENDING)
    else if s.value == "IN_PROGRESS" then Ok(IN_PROGRESS)
    else if s.value == "DONE" then Ok(DONE)
    else Err(IllegalArgument(NoEnumConstant("de.tzr.model.TranslationTaskStatus", s.value)))
  }

  /** The per-language overlay of an article. */
  datatype ArticleTranslation = ArticleTranslation(
    title: Str, excerpt: Str, body: Str, metaTitle: Str, metaDescription: Str,
    readingTimeMinutes: Option<int>)

  /** An overlay freshly built with only its article and language set. */
  const NewArticleTranslation := ArticleTranslation(None, None, None, None, None, None)

  /** An article; dates are day numbers, `categoryId`, `authorId` and
      `tags` refer to rows of the other repositories. */
  datatype Article = Article(
    title: Str, slug: string, excerpt: Str, body: Str,
    categoryId: int, authorId: int, tags: set<int>,
    cardEmoji: Str, coverImageUrl: Str, coverImageCredit: Str,
    status: ArticleStatus, academic: bool, featured: bool,
    publishedDate: Option<int>, readingTimeMinutes: Option<int>,
    metaTitle: Str, metaDescription: Str,
    translations: map<Language, ArticleTranslation>)

  datatype CategoryTranslation = CategoryTranslation(name: Str, displayName: Str, description: Str)

  const NewCategoryTranslation := CategoryTranslation(None, None, None)

  /** A category; `categoryType` is the name of its CategoryType constant. */
  datatype Category = Category(
    name: Str, slug: string, displayName: Str, description: Str,
    emoji: Str, color: Str, bgColor: Str, categoryType: string, sortOrder: int,
    translations: map<Language, CategoryTranslation>)

  datatype AuthorTranslation = AuthorTranslation(bio: Str)

  const NewAuthorTranslation := AuthorTranslation(None)

  datatype Author = Author(
    name: Str, slug: string, bio: Str, email: Str, avatarUrl: Str,
    translations: map<Language, AuthorTranslation>)

  datatype TagTranslation = TagTranslation(name: Str)

  const NewTagTranslation := TagTranslation(None)

  /** A tag; the articles carrying it are those whose `tags` hold its id. */
  datatype Tag = Tag(name: Str, slug: string, translations: map<Language, TagTranslation>)

  datatype TranslationTask = TranslationTask(
    id: int, entityType: EntityType, entityId: int,
    sourceLang: Language, targetLang: Language, status: TaskStatus)

  /** A newsletter subscriber; times are seconds. A subscriber whose
      confirmed flag was never set is modelled as unconfirmed. */
  datatype Subscriber = Subscriber(
    email: string, confirmationToken: Option<string>, tokenExpiresAt: Option<int>, confirmed: bool)

  /** An @Async translation run handed to the background executor. */
  datatype Job = TranslateJob(entityType: EntityType, entityId: int, sourceLang: Language)

  /** A mail handed to EmailService. */
  datatype Email = VerificationEmail(to: string, token: string) | WelcomeEmail(to: string)

  /** The content tables, as one value. */
  datatype Db = Db(
    articles: map<int, Article>, categories: map<int, Category>,
    authors: map<int, Author>, tags: map<int, Tag>, tasks: seq<TranslationTask>)

  /** The slug a form asks for: its own when it has text, else the
      slugified name. */
  function ChosenSlug(dtoSlug: Str, name: string, slugify: string -> string): (r: string)
    ensures HasText(dtoSlug) ==> r == dtoSlug.value
    ensures IsBlank(dtoSlug) ==> r == slugify(name)
  {
    if HasText(dtoSlug) then dtoSlug.value else slugify(name)
  }

  /** The ids of the articles carrying tag `tagId` (Tag.articles). */
  function TaggedArticles(articles: map<int, Article>, tagId: int): (r: set<int>)
    ensures forall id :: id in r <==> id in articles && tagId in articles[id].tags
  {
    set id | id in articles && tagId in articles[id].tags
  }

  /** Unique columns: no two rows share a slug. */
  predicate ArticleSlugsUnique(m: map<int, Article>) {
    forall i, j :: i in m && j in m && m[i].slug == m[j].slug ==> i == j
  }

  predicate CategorySlugsUnique(m: map<int, Category>) {
    forall i, j :: i in m && j in m && m[i].slug == m[j].slug ==> i == j
  }

  predicate AuthorSlugsUnique(m: map<int, Author>) {
    forall i, j :: i in m && j in m && m[i].slug == m[j].slug ==> i == j
  }

  predicate TagSlugsUnique(m: map<int, Tag>) {
    forall i, j :: i in m && j in m && m[i].slug == m[j].slug ==> i == j
  }

  /** Foreign keys: an article's category, author and tags exist. */
  predicate ReferencesExist(db: Db) {
    forall id :: id in db.articles ==>
      db.articles[id].categoryId in db.categories
      && db.articles[id].authorId in db.authors
      && db.articles[id].tags <= db.tags.Keys
  }

  predicate TaskIdsUnique(tasks: seq<TranslationTask>) {
    forall i, j :: 0 <= i < j < |tasks| ==> tasks[i].id != tasks[j].id
  }

  /** The name column of category_translations is NOT NULL. */
  predicate NamesPresent(overlays: map<Language, CategoryTranslation>) {
    forall l :: l in overlays ==> overlays[l].name.Some?
  }

  predicate CategoryNamesPresent(categories: map<int, Category>) {
    forall id :: id in categories ==> NamesPresent(categories[id].translations)
  }

  /** The integrity the database enforces on the content tables. */
  predicate DbValid(db: Db) {
    ArticleSlugsUnique(db.articles) && CategorySlugsUnique(db.categories)
    && AuthorSlugsUnique(db.authors) && TagSlugsUnique(db.tags)
    && ReferencesExist(db) && TaskIdsUnique(db.tasks) && CategoryNamesPresent(db.categories)
  }

  /** Newsletter rows: emails are unique, and a pending token always comes
      with its expiry. */
  predicate SubscribersValid(m: map<int, Subscriber>) {
    (forall i, j :: i in m && j in m && m[i].email == m[j].email ==> i == j)
    && (forall i :: i in m && m[i].confirmationToken.Some? ==> m[i].tokenExpiresAt.Some?)
  }

  /** Every id handed out so far is below the next one. */
  predicate IdsBelow(db: Db, subscribers: map<int, Subscriber>, nextId: int) {
    (forall id :: id in db.articles ==> id < nextId)
    && (forall id :: id in db.categories ==> id < nextId)
    && (forall id :: id in db.authors ==> id < nextId)
    && (forall id :: id in db.tags ==> id < nextId)
    && (forall i :: 0 <= i < |db.tasks| ==> db.tasks[i].id < nextId)
    && (forall id :: id in subscribers ==> id < nextId)
  }

  /** The repositories, the identity generator, the queue of dispatched
      @Async jobs and the mails sent so far. */
  class Store {
    var articles: map<int, Article>
    var categories: map<int, Category>
    var authors: map<int, Author>
    var tags: map<int, Tag>
    var tasks: seq<TranslationTask>
    var subscribers: map<int, Subscriber>
    var nextId: int
    var jobs: seq<Job>
    var outbox: seq<Email>

    function Snapshot(): Db
      reads this
    {
      Db(articles, categories, authors, tags, tasks)
    }

    ghost predicate Valid()
      reads this
    {
      DbValid(Snapshot()) && SubscribersValid(subscribers) && IdsBelow(Snapshot(), subscribers, nextId)
    }

    constructor ()
      ensures Valid()
      ensures articles == map[] && categories == map[] && authors == map[] && tags == map[]
      ensures tasks == [] && subscribers == map[] && jobs == [] && outbox == []
    {
      articles, categories, authors, tags := map[], map[], map[], map[];
      tasks, subscribers := [], map[];
      nextId := 1;
      jobs, outbox := [], [];
    }

    /** The IDENTITY generator: a fresh id for every insert. */
    method FreshId() returns (id: int)
      modifies this`nextId
      ensures id == old(nextId) && nextId == id + 1
    {
      id := nextId;
      nextId := nextId + 1;
    }
  }
}
