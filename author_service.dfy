/** AuthorService: the per-author article counts and the admin writes on
    authors. Every public method is one transaction, so a method that
    raises leaves the store as it was. */
module AuthorService {
  import opened Common
  import opened Model
  import opened Overlays
  import JavaString
  import TranslationTaskService

  /** The admin form; `translations` is null when the form sends none. */
  datatype AuthorCreateDTO = AuthorCreateDTO(
    name: string, slug: Str, bio: Str, email: Str, avatarUrl: Str,
    translations: Option<seq<TranslationDTO<AuthorTranslation>>>)

  function AuthorNotFound(id: int): string {
    "Author not found: " + JavaString.IntToString(id)
  }

  /** existsBySlug */
  predicate SlugTaken(authors: map<int, Author>, slug: string) {
    exists id :: id in authors && authors[id].slug == slug
  }

  /** The articles written by the author. */
  function ArticlesBy(articles: map<int, Article>, authorId: int): (r: set<int>)
    ensures forall a :: a in r <==> a in articles && articles[a].authorId == authorId
  {
    set a | a in articles && articles[a].authorId == authorId
  }

  /** countGroupedByAuthorId as a map: one entry per author that has
      articles, holding how many. */
  function GroupedCounts(articles: map<int, Article>): (r: map<int, nat>)
    ensures forall id :: id in r <==> exists a :: a in articles && articles[a].authorId == id
    ensures forall id :: id in r ==> r[id] == |ArticlesBy(articles, id)|
  {
    var writers := set a | a in articles :: articles[a].authorId;
    map id | id in writers :: |ArticlesBy(articles, id)|
  }

  /** getAll: each author's count, `getOrDefault(id, 0)` on the grouped
      counts. */
  function ArticleCounts(db: Db): (r: map<int, nat>)
    ensures r.Keys == db.authors.Keys
  {
    var grouped := GroupedCounts(db.articles);
    map id | id in db.authors :: if id in grouped then grouped[id] else 0
  }

  /** Every author gets the number of its articles, 0 for an author absent
      from the grouped counts. */
  lemma {:induction false} ArticleCountsExact(db: Db, id: int)
    requires id in db.authors
    ensures ArticleCounts(db)[id] == |ArticlesBy(db.articles, id)|
    ensures id !in GroupedCounts(db.articles) ==> ArticleCounts(db)[id] == 0
  {
    if id !in GroupedCounts(db.articles) {
      NoneOrWitness(db.articles, id);
    }
  }

  lemma NoneOrWitness(articles: map<int, Article>, authorId: int)
    ensures ArticlesBy(articles, authorId) == {} || exists a :: a in articles && articles[a].authorId == authorId
  {
    if forall a :: a in articles ==> articles[a].authorId != authorId {
      assert forall a :: a !in ArticlesBy(articles, authorId);
    }
  }

  /** create as a function of the database: the chosen slug must be free
      and every submitted language a Language. */
  function NewAuthor(db: Db, dto: AuthorCreateDTO, slugify: string -> string): (r: Result<Author>)
    ensures var slug := ChosenSlug(dto.slug, dto.name, slugify);
      && (SlugTaken(db.authors, slug) ==> r == Err(SlugAlreadyExists(slug)))
      && (r.Ok? <==> !SlugTaken(db.authors, slug) && AllLanguagesValid(Submitted(dto.translations)))
    ensures r.Ok? ==>
      && r.value.slug == ChosenSlug(dto.slug, dto.name, slugify) && r.value.name == Some(dto.name)
      && r.value.bio == dto.bio && r.value.email == dto.email && r.value.avatarUrl == dto.avatarUrl
      && SaveAll(map[], Submitted(dto.translations)) == Ok(r.value.translations)
  {
    SaveAllSpec(map[], Submitted(dto.translations));
    var slug := ChosenSlug(dto.slug, dto.name, slugify);
    if SlugTaken(db.authors, slug) then Err(SlugAlreadyExists(slug))
    else match SaveAll(map[], Submitted(dto.translations))
      case Err(e) => Err(e)
      case Ok(m) => Ok(Author(Some(dto.name), slug, dto.bio, dto.email, dto.avatarUrl, m))
  }

  /** update as a function of the database: the row must exist; a slug is
      refused only when it changed and is taken; name, slug, bio, email and
      avatar are overwritten, nulls included. */
  function UpdatedAuthor(db: Db, id: int, dto: AuthorCreateDTO, slugify: string -> string): (r: Result<Author>)
    ensures id !in db.authors ==> r == Err(NotFound(AuthorNotFound(id)))
    ensures id in db.authors ==>
      var slug := ChosenSlug(dto.slug, dto.name, slugify);
      && (slug != db.authors[id].slug && SlugTaken(db.authors, slug) ==> r == Err(SlugAlreadyExists(slug)))
      && (r.Ok? <==>
            (slug == db.authors[id].slug || !SlugTaken(db.authors, slug)) && AllLanguagesValid(Submitted(dto.translations)))
    ensures r.Ok? ==>
      && r.value.slug == ChosenSlug(dto.slug, dto.name, slugify) && r.value.name == Some(dto.name)
      && r.value.bio == dto.bio && r.value.email == dto.email && r.value.avatarUrl == dto.avatarUrl
      && SaveAll(db.authors[id].translations, Submitted(dto.translations)) == Ok(r.value.translations)
  {
    if id !in db.authors then Err(NotFound(AuthorNotFound(id)))
    else
      var a := db.authors[id];
      SaveAllSpec(a.translations, Submitted(dto.translations));
      var slug := ChosenSlug(dto.slug, dto.name, slugify);
      if slug != a.slug && SlugTaken(db.authors, slug) then Err(SlugAlreadyExists(slug))
      else match SaveAll(a.translations, Submitted(dto.translations))
        case Err(e) => Err(e)
        case Ok(m) => Ok(Author(Some(dto.name), slug, dto.bio, dto.email, dto.avatarUrl, m))
  }

  /** The author's own overlay after update: one per submitted language,
      its bio the last one submitted, nulls included. */
  lemma UpdateOverwritesBio(db: Db, id: int, dto: AuthorCreateDTO, slugify: string -> string, l: Language)
    requires UpdatedAuthor(db, id, dto, slugify).Ok? && Latest(Submitted(dto.translations), l).Some?
    ensures l in UpdatedAuthor(db, id, dto, slugify).value.translations
    ensures UpdatedAuthor(db, id, dto, slugify).value.translations[l].bio == Latest(Submitted(dto.translations), l).value.bio
  {
    SaveAllSpec(db.authors[id].translations, Submitted(dto.translations));
  }

  function StillUsed(count: nat): string {
    "Autor kann nicht gel\U{F6}scht werden: Es existieren noch " + JavaString.NatToString(count)
      + " Beitr\U{E4}ge dieses Autors."
  }

  /** delete: refused while the author has articles. */
  function Deleted(db: Db, id: int): (r: Result<map<int, Author>>)
    ensures id !in db.authors ==> r == Err(NotFound(AuthorNotFound(id)))
    ensures id in db.authors && |ArticlesBy(db.articles, id)| > 0 ==>
      r == Err(IllegalState(StillUsed(|ArticlesBy(db.articles, id)|)))
    ensures r.Ok? <==> id in db.authors && forall a :: a in db.articles ==> db.articles[a].authorId != id
    ensures r.Ok? ==>
      (r.value.Keys == db.authors.Keys - {id} && forall k :: k in r.value ==> r.value[k] == db.authors[k])
  {
    if id !in db.authors then Err(NotFound(AuthorNotFound(id)))
    else
      var count := |ArticlesBy(db.articles, id)|;
      NoneOrWitness(db.articles, id);
      if count > 0 then Err(IllegalState(StillUsed(count)))
      else
        Ok(map k | k in db.authors && k != id :: db.authors[k])
  }

  // ---------------------------------------------------------------------
  // The transactional methods

  /** The part of create before the first write. */
  method BuildAuthor(st: Store, dto: AuthorCreateDTO, slugify: string -> string) returns (r: Result<Author>)
    ensures r == NewAuthor(st.Snapshot(), dto, slugify)
  {
    var slug := ChosenSlug(dto.slug, dto.name, slugify);
    if SlugTaken(st.authors, slug) {
      return Err(SlugAlreadyExists(slug));
    }
    var author := Author(Some(dto.name), slug, dto.bio, dto.email, dto.avatarUrl, map[]);
    var overlays := SaveOverlays(author.translations, Submitted(dto.translations));
    if overlays.Err? {
      return Err(overlays.error);
    }
    r := Ok(author.(translations := overlays.value));
  }

  /** create: the author is inserted under the next id, PT and EN tasks are
      opened for it and a translation run from DE is dispatched. */
  method Create(st: Store, dto: AuthorCreateDTO, slugify: string -> string) returns (r: Result<int>)
    requires st.Valid()
    modifies st
    ensures st.Valid()
    ensures NewAuthor(old(st.Snapshot()), dto, slugify).Err? ==>
      r == Err(NewAuthor(old(st.Snapshot()), dto, slugify).error) && unchanged(st)
    ensures NewAuthor(old(st.Snapshot()), dto, slugify).Ok? ==>
      var id := old(st.nextId);
      && r == Ok(id)
      && st.authors == old(st.authors)[id := NewAuthor(old(st.Snapshot()), dto, slugify).value]
      && TranslationTaskService.Ledger(st.tasks, st.nextId)
         == TranslationTaskService.CreateTasks(TranslationTaskService.Ledger(old(st.tasks), id + 1), AUTHOR, id)
      && st.jobs == old(st.jobs) + [TranslateJob(AUTHOR, id, DEFAULT)]
      && st.articles == old(st.articles) && st.categories == old(st.categories) && st.tags == old(st.tags)
      && st.subscribers == old(st.subscribers) && st.outbox == old(st.outbox)
  {
    var built := BuildAuthor(st, dto, slugify);
    if built.Err? {
      return Err(built.error);
    }
    var id := InsertAuthor(st, built.value);
    r := Ok(id);
  }

  /** save, createTasksForEntity and translateAuthor for a checked row. */
  method InsertAuthor(st: Store, author: Author) returns (id: int)
    requires st.Valid() && !SlugTaken(st.authors, author.slug)
    modifies st
    ensures st.Valid()
    ensures id == old(st.nextId) && st.authors == old(st.authors)[id := author]
    ensures TranslationTaskService.Ledger(st.tasks, st.nextId)
         == TranslationTaskService.CreateTasks(TranslationTaskService.Ledger(old(st.tasks), id + 1), AUTHOR, id)
    ensures st.jobs == old(st.jobs) + [TranslateJob(AUTHOR, id, DEFAULT)]
    ensures st.articles == old(st.articles) && st.categories == old(st.categories) && st.tags == old(st.tags)
    ensures st.subscribers == old(st.subscribers) && st.outbox == old(st.outbox)
  {
    id := st.FreshId();
    st.authors := st.authors[id := author];
    TranslationTaskService.CreateTasksKeepValid(st.Snapshot(), st.subscribers, st.nextId, AUTHOR, id);
    TranslationTaskService.CreateTasksForEntity(st, AUTHOR, id);
    st.jobs := st.jobs + [TranslateJob(AUTHOR, id, DEFAULT)];
  }

  /** update: the row takes the form's fields and overlays; a translation
      run is dispatched, but no task is opened. */
  method Update(st: Store, id: int, dto: AuthorCreateDTO, slugify: string -> string) returns (r: Result<int>)
    requires st.Valid()
    modifies st
    ensures st.Valid()
    ensures UpdatedAuthor(old(st.Snapshot()), id, dto, slugify).Err? ==>
      r == Err(UpdatedAuthor(old(st.Snapshot()), id, dto, slugify).error) && unchanged(st)
    ensures UpdatedAuthor(old(st.Snapshot()), id, dto, slugify).Ok? ==>
      && r == Ok(id)
      && st.authors == old(st.authors)[id := UpdatedAuthor(old(st.Snapshot()), id, dto, slugify).value]
      && st.jobs == old(st.jobs) + [TranslateJob(AUTHOR, id, DEFAULT)]
      && st.tasks == old(st.tasks) && st.nextId == old(st.nextId)
      && st.articles == old(st.articles) && st.categories == old(st.categories) && st.tags == old(st.tags)
      && st.subscribers == old(st.subscribers) && st.outbox == old(st.outbox)
  {
    if id !in st.authors {
      return Err(NotFound(AuthorNotFound(id)));
    }
    var author := st.authors[id];
    var newSlug := ChosenSlug(dto.slug, dto.name, slugify);
    if newSlug != author.slug && SlugTaken(st.authors, newSlug) {
      return Err(SlugAlreadyExists(newSlug));
    }
    author := author.(name := Some(dto.name), slug := newSlug, bio := dto.bio, email := dto.email,
                      avatarUrl := dto.avatarUrl);
    var overlays := SaveOverlays(author.translations, Submitted(dto.translations));
    if overlays.Err? {
      return Err(overlays.error);
    }
    author := author.(translations := overlays.value);
    st.authors := st.authors[id := author];
    st.jobs := st.jobs + [TranslateJob(AUTHOR, id, DEFAULT)];
    r := Ok(id);
  }

  /** delete */
  method Delete(st: Store, id: int) returns (r: Result<()>)
    requires st.Valid()
    modifies st`authors
    ensures st.Valid()
    ensures Deleted(old(st.Snapshot()), id).Err? ==>
      r == Err(Deleted(old(st.Snapshot()), id).error) && st.authors == old(st.authors)
    ensures Deleted(old(st.Snapshot()), id).Ok? ==> r == Ok(()) && st.authors == Deleted(old(st.Snapshot()), id).value
  {
    if id !in st.authors {
      return Err(NotFound(AuthorNotFound(id)));
    }
    var count := |ArticlesBy(st.articles, id)|;
    if count > 0 {
      return Err(IllegalState(StillUsed(count)));
    }
    st.authors := map k | k in st.authors && k != id :: st.authors[k];
    r := Ok(());
  }
}
