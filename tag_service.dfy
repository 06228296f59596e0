/** TagService: the tag listing and the admin writes on tags. Deleting and
    merging walk the tag's articles and rewrite their tag sets in place. */
module TagService {
  import opened Common
  import opened Model
  import JavaString
  import TranslationTaskService

  function TagNotFound(id: int): string {
    "Tag not found: " + JavaString.IntToString(id)
  }

  function SourceNotFound(id: int): string {
    "Source tag not found: " + JavaString.IntToString(id)
  }

  function TargetNotFound(id: int): string {
    "Target tag not found: " + JavaString.IntToString(id)
  }

  /** existsBySlug */
  predicate SlugTaken(tags: map<int, Tag>, slug: string) {
    exists id :: id in tags && tags[id].slug == slug
  }

  /** One row of getAll: the tag, how many articles carry it and the name
      of each of its overlays. */
  datatype TagListing = TagListing(
    name: Str, slug: string, articleCount: nat, translationNames: map<Language, Str>)

  function Listing(db: Db): (r: map<int, TagListing>)
    ensures r.Keys == db.tags.Keys
    ensures forall id :: id in r ==>
      && r[id].name == db.tags[id].name && r[id].slug == db.tags[id].slug
      && r[id].articleCount == |TaggedArticles(db.articles, id)|
      && r[id].translationNames.Keys == db.tags[id].translations.Keys
      && forall l :: l in r[id].translationNames ==> r[id].translationNames[l] == db.tags[id].translations[l].name
  {
    map id | id in db.tags ::
      var t := db.tags[id];
      TagListing(t.name, t.slug, |TaggedArticles(db.articles, id)|,
                 map l | l in t.translations :: t.translations[l].name)
  }

  /** A tag no article references is listed with count 0; in particular
      the tag create has just inserted, which create reports with 0. */
  lemma UnusedTagCountsZero(db: Db, id: int)
    requires DbValid(db) && id !in db.tags
    ensures TaggedArticles(db.articles, id) == {}
  {
    forall a | a in db.articles ensures id !in db.articles[a].tags {
      assert db.articles[a].tags <= db.tags.Keys;
    }
  }

  /** Every article carrying `source` has it replaced by the tags in
      `replacement`: delete passes none, merge passes the target. */
  function Retagged(articles: map<int, Article>, source: int, replacement: set<int>): (r: map<int, Article>)
    ensures r.Keys == articles.Keys
    ensures forall a :: a in r ==>
      && (source in articles[a].tags ==> r[a].tags == articles[a].tags - {source} + replacement)
      && (source !in articles[a].tags ==> r[a] == articles[a])
      && r[a].(tags := articles[a].tags) == articles[a]
  {
    map a | a in articles ::
      if source in articles[a].tags then articles[a].(tags := articles[a].tags - {source} + replacement)
      else articles[a]
  }

  /** After delete no article carries the tag, and every other tag stays
      where it was. */
  lemma DeleteUntags(articles: map<int, Article>, id: int)
    ensures TaggedArticles(Retagged(articles, id, {}), id) == {}
    ensures forall a :: a in articles ==> Retagged(articles, id, {})[a].tags == articles[a].tags - {id}
  {
    var r := Retagged(articles, id, {});
    forall a | a in articles ensures r[a].tags == articles[a].tags - {id} {
      if id !in articles[a].tags {
        assert articles[a].tags - {id} == articles[a].tags;
      }
    }
  }

  /** merge of two different tags: every article that had the source now
      has the target and not the source, the others keep their tags, and
      the target is carried by the articles of both. */
  lemma MergeRetags(articles: map<int, Article>, source: int, target: int)
    requires source != target
    ensures var r := Retagged(articles, source, {target});
      && (forall a :: a in articles && source in articles[a].tags ==>
            target in r[a].tags && source !in r[a].tags)
      && (forall a :: a in articles && source !in articles[a].tags ==> r[a].tags == articles[a].tags)
      && TaggedArticles(r, source) == {}
      && TaggedArticles(r, target) == TaggedArticles(articles, source) + TaggedArticles(articles, target)
  {
    var r := Retagged(articles, source, {target});
    assert TaggedArticles(r, source) == {} by {
      forall a | a in r ensures source !in r[a].tags { }
    }
  }

  /** Deleting a tag nobody carries any more, or whose carriers moved to a
      surviving tag, keeps the integrity of the database. */
  lemma RetagKeepsValid(db: Db, subscribers: map<int, Subscriber>, nextId: int, source: int, replacement: set<int>)
    requires DbValid(db) && IdsBelow(db, subscribers, nextId)
    requires replacement <= db.tags.Keys && source !in replacement
    ensures var db' := db.(articles := Retagged(db.articles, source, replacement), tags := db.tags - {source});
      DbValid(db') && IdsBelow(db', subscribers, nextId)
  {
    var r := Retagged(db.articles, source, replacement);
    forall a | a in r ensures r[a].slug == db.articles[a].slug && r[a].tags <= db.tags.Keys - {source} {
      assert r[a].(tags := db.articles[a].tags) == db.articles[a];
      if source !in db.articles[a].tags {
        assert db.articles[a].tags <= db.tags.Keys;
      }
    }
  }

  /** The outcome of merge on the content tables. Merging a tag into
      itself leaves its articles pointing at the deleted row: the flush
      fails on the foreign key and the transaction rolls back. */
  function Merged(db: Db, source: int, target: int): (r: Result<(map<int, Article>, map<int, Tag>)>)
    ensures source !in db.tags ==> r == Err(NotFound(SourceNotFound(source)))
    ensures source in db.tags && target !in db.tags ==> r == Err(NotFound(TargetNotFound(target)))
    ensures r.Ok? <==>
      source in db.tags && target in db.tags && (source != target || TaggedArticles(db.articles, source) == {})
    ensures r.Err? && source in db.tags && target in db.tags ==> r == Err(ConstraintViolation)
    ensures r.Ok? ==> r.value.1 == db.tags - {source}
  {
    if source !in db.tags then Err(NotFound(SourceNotFound(source)))
    else if target !in db.tags then Err(NotFound(TargetNotFound(target)))
    else if source == target && TaggedArticles(db.articles, source) != {} then Err(ConstraintViolation)
    else Ok((Retagged(db.articles, source, {target}), db.tags - {source}))
  }

  /** Self-merge of an unused tag just deletes it. */
  lemma SelfMergeOfUnusedTag(db: Db, id: int)
    requires id in db.tags && TaggedArticles(db.articles, id) == {}
    ensures Merged(db, id, id) == Ok((db.articles, db.tags - {id}))
  {
    assert Retagged(db.articles, id, {id}) == db.articles;
  }

  // ---------------------------------------------------------------------
  // The transactional methods

  /** create: the slug is the slugified name; PT and EN tasks are opened
      and a translation run from DE is dispatched. */
  method Create(st: Store, name: string, slugify: string -> string) returns (r: Result<int>)
    requires st.Valid()
    modifies st
    ensures st.Valid()
    ensures SlugTaken(old(st.tags), slugify(name)) ==>
      r == Err(SlugAlreadyExists(slugify(name))) && unchanged(st)
    ensures !SlugTaken(old(st.tags), slugify(name)) ==>
      var id := old(st.nextId);
      && r == Ok(id)
      && st.tags == old(st.tags)[id := Tag(Some(name), slugify(name), map[])]
      && TaggedArticles(st.articles, id) == {}
      && TranslationTaskService.Ledger(st.tasks, st.nextId)
         == TranslationTaskService.CreateTasks(TranslationTaskService.Ledger(old(st.tasks), id + 1), TAG, id)
      && st.jobs == old(st.jobs) + [TranslateJob(TAG, id, DEFAULT)]
      && st.articles == old(st.articles) && st.categories == old(st.categories) && st.authors == old(st.authors)
      && st.subscribers == old(st.subscribers) && st.outbox == old(st.outbox)
  {
    var slug := slugify(name);
    if SlugTaken(st.tags, slug) {
      return Err(SlugAlreadyExists(slug));
    }
    UnusedTagCountsZero(st.Snapshot(), st.nextId);
    var id := st.FreshId();
    st.tags := st.tags[id := Tag(Some(name), slug, map[])];
    TranslationTaskService.CreateTasksKeepValid(st.Snapshot(), st.subscribers, st.nextId, TAG, id);
    TranslationTaskService.CreateTasksForEntity(st, TAG, id);
    st.jobs := st.jobs + [TranslateJob(TAG, id, DEFAULT)];
    r := Ok(id);
  }

  /** update: a changed slug must be free; neither a task nor a translation
      run follows. */
  method Update(st: Store, id: int, name: string, slugify: string -> string) returns (r: Result<int>)
    requires st.Valid()
    modifies st`tags
    ensures st.Valid()
    ensures id !in old(st.tags) ==> r == Err(NotFound(TagNotFound(id))) && st.tags == old(st.tags)
    ensures id in old(st.tags) && slugify(name) != old(st.tags)[id].slug && SlugTaken(old(st.tags), slugify(name)) ==>
      r == Err(SlugAlreadyExists(slugify(name))) && st.tags == old(st.tags)
    ensures r.Ok? <==>
      id in old(st.tags) && (slugify(name) == old(st.tags)[id].slug || !SlugTaken(old(st.tags), slugify(name)))
    ensures r.Ok? ==>
      r == Ok(id) && st.tags == old(st.tags)[id := old(st.tags)[id].(name := Some(name), slug := slugify(name))]
  {
    if id !in st.tags {
      return Err(NotFound(TagNotFound(id)));
    }
    var tag := st.tags[id];
    var newSlug := slugify(name);
    if newSlug != tag.slug && SlugTaken(st.tags, newSlug) {
      return Err(SlugAlreadyExists(newSlug));
    }
    st.tags := st.tags[id := tag.(name := Some(name), slug := newSlug)];
    r := Ok(id);
  }

  /** The loop shared by delete and merge: each article carrying `source`
      drops it and gains `replacement`. */
  method ReplaceTag(st: Store, source: int, replacement: set<int>)
    modifies st`articles
    ensures st.articles == Retagged(old(st.articles), source, replacement)
  {
    ghost var start := st.articles;
    var todo := TaggedArticles(st.articles, source);
    while todo != {}
      invariant todo <= TaggedArticles(start, source)
      invariant st.articles.Keys == start.Keys
      invariant forall a :: a in start ==>
        st.articles[a] == (if a in todo then start[a] else Retagged(start, source, replacement)[a])
      decreases |todo|
    {
      var a := ElementOf(todo);
      var article := st.articles[a];
      st.articles := st.articles[a := article.(tags := article.tags - {source} + replacement)];
      todo := todo - {a};
    }
    ghost var done := Retagged(start, source, replacement);
    assert forall a :: a in st.articles ==> st.articles[a] == done[a];
    assert st.articles.Keys == done.Keys;
  }

  /** delete: the tag leaves every article, then its row goes. */
  method Delete(st: Store, id: int) returns (r: Result<()>)
    requires st.Valid()
    modifies st`articles, st`tags
    ensures st.Valid()
    ensures id !in old(st.tags) ==>
      r == Err(NotFound(TagNotFound(id))) && st.articles == old(st.articles) && st.tags == old(st.tags)
    ensures id in old(st.tags) ==>
      && r == Ok(())
      && st.articles == Retagged(old(st.articles), id, {}) && st.tags == old(st.tags) - {id}
      && TaggedArticles(st.articles, id) == {}
  {
    if id !in st.tags {
      return Err(NotFound(TagNotFound(id)));
    }
    RetagKeepsValid(st.Snapshot(), st.subscribers, st.nextId, id, {});
    DeleteUntags(st.articles, id);
    ReplaceTag(st, id, {});
    st.tags := st.tags - {id};
    r := Ok(());
  }

  /** merge: the source's articles move to the target and the source row
      goes. */
  method Merge(st: Store, sourceId: int, targetId: int) returns (r: Result<()>)
    requires st.Valid()
    modifies st`articles, st`tags
    ensures st.Valid()
    ensures Merged(old(st.Snapshot()), sourceId, targetId).Err? ==>
      && r == Err(Merged(old(st.Snapshot()), sourceId, targetId).error)
      && st.articles == old(st.articles) && st.tags == old(st.tags)
    ensures Merged(old(st.Snapshot()), sourceId, targetId).Ok? ==>
      && r == Ok(())
      && (st.articles, st.tags) == Merged(old(st.Snapshot()), sourceId, targetId).value
  {
    if sourceId !in st.tags {
      return Err(NotFound(SourceNotFound(sourceId)));
    }
    if targetId !in st.tags {
      return Err(NotFound(TargetNotFound(targetId)));
    }
    if sourceId == targetId {
      var carriers := TaggedArticles(st.articles, sourceId);
      if carriers != {} {
        return Err(ConstraintViolation);
      }
      SelfMergeOfUnusedTag(st.Snapshot(), sourceId);
      RetagKeepsValid(st.Snapshot(), st.subscribers, st.nextId, sourceId, {});
      assert Retagged(st.articles, sourceId, {}) == st.articles;
    } else {
      RetagKeepsValid(st.Snapshot(), st.subscribers, st.nextId, sourceId, {targetId});
    }
    ReplaceTag(st, sourceId, {targetId});
    st.tags := st.tags - {sourceId};
    r := Ok(());
  }
}
