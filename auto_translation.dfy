/** AutoTranslationService: for one entity and source language, translate
    the source texts into every other language and merge what came back
    into that language's overlay, closing the matching tasks. The two
    providers are oracles from (text, source, target) to a possibly-null
    answer; failures the per-language try/catch swallows are an oracle
    over the target language. */
module AutoTranslation {
  import opened Common
  import opened Model
  import TranslationProperties
  import ProviderHttp
  import DeepLClient
  import ClaudeClient

  /** A provider's answer for a non-blank text. */
  type Provider = (string, Language, Language) -> Str

  datatype Providers = Providers(deepl: Provider, claude: Provider)

  /** The providers the service is wired with: the two clients over their
      HTTP exchanges. */
  function ClientProviders(props: TranslationProperties.Properties,
                           deeplExchange: DeepLClient.DeepLRequest -> ProviderHttp.HttpReply,
                           claudeExchange: ClaudeClient.ClaudeRequest -> ProviderHttp.HttpReply): (p: Providers)
    ensures forall text, s, t :: p.deepl(text, s, t) == DeepLClient.Translate(props, deeplExchange, Some(text), s, t)
    ensures forall text, s, t :: p.claude(text, s, t) == ClaudeClient.Translate(props, claudeExchange, Some(text), s, t)
  {
    Providers((text, s, t) => DeepLClient.Translate(props, deeplExchange, Some(text), s, t),
              (text, s, t) => ClaudeClient.Translate(props, claudeExchange, Some(text), s, t))
  }

  // ---------------------------------------------------------------------
  // Strategies

  /** translateShort: DeepL first, Claude only when DeepL answers null;
      null or blank text is returned as it is without asking anyone. */
  function TranslateShort(p: Providers, text: Str, source: Language, target: Language): (r: Str)
    ensures IsBlank(text) ==> r == text
    ensures HasText(text) && p.deepl(text.value, source, target).Some? ==> r == p.deepl(text.value, source, target)
    ensures HasText(text) && p.deepl(text.value, source, target).None? ==> r == p.claude(text.value, source, target)
  {
    if IsBlank(text) then text
    else
      var first := p.deepl(text.value, source, target);
      if first.Some? then first else p.claude(text.value, source, target)
  }

  /** translateLong: Claude first, DeepL only when Claude answers null. */
  function TranslateLong(p: Providers, text: Str, source: Language, target: Language): (r: Str)
    ensures IsBlank(text) ==> r == text
    ensures HasText(text) && p.claude(text.value, source, target).Some? ==> r == p.claude(text.value, source, target)
    ensures HasText(text) && p.claude(text.value, source, target).None? ==> r == p.deepl(text.value, source, target)
  {
    if IsBlank(text) then text
    else
      var first := p.claude(text.value, source, target);
      if first.Some? then first else p.deepl(text.value, source, target)
  }

  /** The long strategy is the short one with the providers' order swapped. */
  lemma LongIsShortSwapped(p: Providers, text: Str, source: Language, target: Language)
    ensures TranslateLong(p, text, source, target) == TranslateShort(Providers(p.claude, p.deepl), text, source, target)
  {
  }

  /** For a text with content, both strategies answer null exactly when
      both providers do, and any answer is one a provider gave; a blank
      non-null text always answers non-null. */
  lemma StrategiesNullOnlyWhenBothFail(p: Providers, text: Str, source: Language, target: Language)
    ensures HasText(text) ==>
      (TranslateShort(p, text, source, target).None? <==>
        p.deepl(text.value, source, target).None? && p.claude(text.value, source, target).None?)
    ensures HasText(text) ==>
      (TranslateLong(p, text, source, target).None? <==>
        p.deepl(text.value, source, target).None? && p.claude(text.value, source, target).None?)
    ensures HasText(text) && TranslateShort(p, text, source, target).Some? ==>
      TranslateShort(p, text, source, target) in {p.deepl(text.value, source, target), p.claude(text.value, source, target)}
    ensures text.Some? && IsBlank(text) ==>
      TranslateShort(p, text, source, target) == text && TranslateLong(p, text, source, target) == text
  {
  }

  // ---------------------------------------------------------------------
  // Target languages

  /** `ls` without `x`, in order. */
  function Without(ls: seq<Language>, x: Language): (r: seq<Language>)
    ensures forall l :: l in r <==> l in ls && l != x
    ensures |r| <= |ls|
  {
    if |ls| == 0 then []
    else if ls[0] == x then Without(ls[1..], x)
    else [ls[0]] + Without(ls[1..], x)
  }

  predicate Distinct(ls: seq<Language>) {
    forall i, j :: 0 <= i < j < |ls| ==> ls[i] != ls[j]
  }

  lemma {:induction false} WithoutKeepsDistinct(ls: seq<Language>, x: Language)
    requires Distinct(ls)
    ensures Distinct(Without(ls, x))
  {
    if |ls| > 0 {
      assert Distinct(ls[1..]);
      WithoutKeepsDistinct(ls[1..], x);
      assert ls[0] !in ls[1..];
    }
  }

  /** targetLanguages: every language but the source, in declaration order. */
  function TargetLanguages(source: Language): (r: seq<Language>)
    ensures forall l :: l in r <==> l != source
  {
    Without(AllLanguages, source)
  }

  /** Each language other than the source is a target exactly once. */
  lemma TargetLanguagesExact(source: Language)
    ensures Distinct(TargetLanguages(source))
    ensures source !in TargetLanguages(source)
    ensures forall l :: l != source ==> l in TargetLanguages(source)
    ensures |TargetLanguages(source)| == 2
  {
    WithoutKeepsDistinct(AllLanguages, source);
    assert AllLanguages == [DE, PT, EN];
    assert AllLanguages[1..] == [PT, EN] && AllLanguages[1..][1..] == [EN] && AllLanguages[1..][1..][1..] == [];
  }

  // ---------------------------------------------------------------------
  // Source texts

  /** The translatable text fields of an article. */
  datatype ArticleText = Title | Excerpt | Body | MetaTitle | MetaDescription

  function CanonicalArticleText(a: Article, f: ArticleText): Str {
    match f
    case Title => a.title
    case Excerpt => a.excerpt
    case Body => a.body
    case MetaTitle => a.metaTitle
    case MetaDescription => a.metaDescription
  }

  function OverlayArticleText(o: ArticleTranslation, f: ArticleText): Str {
    match f
    case Title => o.title
    case Excerpt => o.excerpt
    case Body => o.body
    case MetaTitle => o.metaTitle
    case MetaDescription => o.metaDescription
  }

  /** getArticleField: a non-default language with an overlay reads that
      overlay, even where its field is null; otherwise the article itself. */
  function ArticleField(a: Article, lang: Language, f: ArticleText): (r: Str)
    ensures lang != DEFAULT && lang in a.translations ==> r == OverlayArticleText(a.translations[lang], f)
    ensures lang == DEFAULT || lang !in a.translations ==> r == CanonicalArticleText(a, f)
  {
    if lang != DEFAULT && lang in a.translations then OverlayArticleText(a.translations[lang], f)
    else CanonicalArticleText(a, f)
  }

  datatype CategoryText = Name | DisplayName | Description

  function CanonicalCategoryText(c: Category, f: CategoryText): Str {
    match f
    case Name => c.name
    case DisplayName => c.displayName
    case Description => c.description
  }

  function OverlayCategoryText(o: CategoryTranslation, f: CategoryText): Str {
    match f
    case Name => o.name
    case DisplayName => o.displayName
    case Description => o.description
  }

  /** getCategoryField, by the same rule as getArticleField. */
  function CategoryField(c: Category, lang: Language, f: CategoryText): (r: Str)
    ensures lang != DEFAULT && lang in c.translations ==> r == OverlayCategoryText(c.translations[lang], f)
    ensures lang == DEFAULT || lang !in c.translations ==> r == CanonicalCategoryText(c, f)
  {
    if lang != DEFAULT && lang in c.translations then OverlayCategoryText(c.translations[lang], f)
    else CanonicalCategoryText(c, f)
  }

  /** getAuthorBio: unlike the other readers, a null overlay bio falls back
      to the author's own. */
  function AuthorBio(a: Author, lang: Language): (r: Str)
    ensures lang != DEFAULT && lang in a.translations && a.translations[lang].bio.Some? ==> r == a.translations[lang].bio
    ensures !(lang != DEFAULT && lang in a.translations && a.translations[lang].bio.Some?) ==> r == a.bio
  {
    if lang != DEFAULT && lang in a.translations && a.translations[lang].bio.Some? then a.translations[lang].bio
    else a.bio
  }

  /** The tag's source name: the overlay's name when the source language
      has an overlay (null included), else the tag's own. */
  function TagSourceName(t: Tag, lang: Language): (r: Str)
    ensures lang != DEFAULT && lang in t.translations ==> r == t.translations[lang].name
    ensures lang == DEFAULT || lang !in t.translations ==> r == t.name
  {
    if lang != DEFAULT && lang in t.translations then t.translations[lang].name else t.name
  }

  // ---------------------------------------------------------------------
  // One target language

  /** What one `*ToLang` call does with the entity: nothing (missing, or
      abandoned), save the changed entity, or fail on save. */
  datatype Outcome<E> = Skipped | Saved(entity: E) | Failed

  /** A translated value overwrites, a null one keeps what was there. */
  function Keep(current: Str, translated: Str): (r: Str)
    ensures translated.Some? ==> r == translated
    ensures translated.None? ==> r == current
  {
    if translated.Some? then translated else current
  }

  datatype ArticleTexts = ArticleTexts(title: Str, excerpt: Str, body: Str, metaTitle: Str, metaDescription: Str)

  /** The five translations: the body with the long strategy, the rest
      with the short one. */
  function TranslatedArticleTexts(p: Providers, a: Article, source: Language, target: Language): ArticleTexts {
    ArticleTexts(
      TranslateShort(p, ArticleField(a, source, Title), source, target),
      TranslateShort(p, ArticleField(a, source, Excerpt), source, target),
      TranslateLong(p, ArticleField(a, source, Body), source, target),
      TranslateShort(p, ArticleField(a, source, MetaTitle), source, target),
      TranslateShort(p, ArticleField(a, source, MetaDescription), source, target))
  }

  /** The overlay to update: the stored one, else a fresh empty one. */
  function OverlayOrNew<O>(translations: map<Language, O>, l: Language, empty: O): (r: O)
    ensures l in translations ==> r == translations[l]
    ensures l !in translations ==> r == empty
  {
    if l in translations then translations[l] else empty
  }

  /** The partial merge: each non-null translation replaces its field, every
      other field keeps its value, and the reading time is the article's. */
  function MergeArticle(base: ArticleTranslation, tr: ArticleTexts, readingTime: Option<int>): (r: ArticleTranslation)
    ensures r.title == Keep(base.title, tr.title) && r.excerpt == Keep(base.excerpt, tr.excerpt)
    ensures r.body == Keep(base.body, tr.body) && r.metaTitle == Keep(base.metaTitle, tr.metaTitle)
    ensures r.metaDescription == Keep(base.metaDescription, tr.metaDescription)
    ensures r.readingTimeMinutes == readingTime
  {
    ArticleTranslation(
      Keep(base.title, tr.title), Keep(base.excerpt, tr.excerpt), Keep(base.body, tr.body),
      Keep(base.metaTitle, tr.metaTitle), Keep(base.metaDescription, tr.metaDescription),
      readingTime)
  }

  /** The new overlay of `target`, or None when title and body both came
      back null and the language is abandoned. */
  function ArticleOverlay(p: Providers, a: Article, source: Language, target: Language): (r: Option<ArticleTranslation>)
    ensures var tr := TranslatedArticleTexts(p, a, source, target);
      r.None? <==> tr.title.None? && tr.body.None?
    ensures r.Some? ==>
      r.value == MergeArticle(OverlayOrNew(a.translations, target, NewArticleTranslation),
                              TranslatedArticleTexts(p, a, source, target), a.readingTimeMinutes)
  {
    var tr := TranslatedArticleTexts(p, a, source, target);
    if tr.title.None? && tr.body.None? then None
    else Some(MergeArticle(OverlayOrNew(a.translations, target, NewArticleTranslation), tr, a.readingTimeMinutes))
  }

  function ArticleStep(p: Providers, a: Article, source: Language, target: Language): (r: Outcome<Article>)
    ensures ArticleOverlay(p, a, source, target).None? ==> r.Skipped?
    ensures ArticleOverlay(p, a, source, target).Some? ==>
      r == Saved(a.(translations := a.translations[target := ArticleOverlay(p, a, source, target).value]))
  {
    match ArticleOverlay(p, a, source, target)
    case None => Skipped
    case Some(o) => Saved(a.(translations := a.translations[target := o]))
  }

  /** A blank source title is passed through as a non-null "translation",
      so the language is never abandoned and the blank title is stored. */
  lemma BlankTitleIsKept(p: Providers, a: Article, source: Language, target: Language)
    requires ArticleField(a, source, Title).Some? && IsBlank(ArticleField(a, source, Title))
    ensures ArticleOverlay(p, a, source, target).Some?
    ensures ArticleOverlay(p, a, source, target).value.title == ArticleField(a, source, Title)
  {
  }

  function CategoryTranslatedTexts(p: Providers, c: Category, source: Language, target: Language): CategoryTranslation {
    CategoryTranslation(
      TranslateShort(p, CategoryField(c, source, Name), source, target),
      TranslateShort(p, CategoryField(c, source, DisplayName), source, target),
      TranslateShort(p, CategoryField(c, source, Description), source, target))
  }

  function MergeCategory(base: CategoryTranslation, tr: CategoryTranslation): (r: CategoryTranslation)
    ensures r.name == Keep(base.name, tr.name) && r.displayName == Keep(base.displayName, tr.displayName)
    ensures r.description == Keep(base.description, tr.description)
  {
    CategoryTranslation(Keep(base.name, tr.name), Keep(base.displayName, tr.displayName), Keep(base.description, tr.description))
  }

  /** The new overlay of `target`: abandoned when name and display name
      both came back null; a merge that leaves the overlay without a name
      breaks the column's NOT NULL and the save fails. */
  function CategoryStep(p: Providers, c: Category, source: Language, target: Language): (r: Outcome<Category>)
    ensures var tr := CategoryTranslatedTexts(p, c, source, target);
      r.Skipped? <==> tr.name.None? && tr.displayName.None?
    ensures var tr := CategoryTranslatedTexts(p, c, source, target);
      var merged := MergeCategory(OverlayOrNew(c.translations, target, NewCategoryTranslation), tr);
      r.Failed? <==> !(tr.name.None? && tr.displayName.None?) && merged.name.None?
    ensures r.Saved? ==>
      r.entity == c.(translations := c.translations[target :=
        MergeCategory(OverlayOrNew(c.translations, target, NewCategoryTranslation), CategoryTranslatedTexts(p, c, source, target))])
  {
    var tr := CategoryTranslatedTexts(p, c, source, target);
    if tr.name.None? && tr.displayName.None? then Skipped
    else
      var merged := MergeCategory(OverlayOrNew(c.translations, target, NewCategoryTranslation), tr);
      if merged.name.None? then Failed
      else Saved(c.(translations := c.translations[target := merged]))
  }

  /** A new overlay whose name did not come back cannot be saved, even
      when the display name did. */
  lemma NamelessNewCategoryOverlayFails(p: Providers, c: Category, source: Language, target: Language)
    requires target !in c.translations
    requires CategoryTranslatedTexts(p, c, source, target).name.None?
    requires CategoryTranslatedTexts(p, c, source, target).displayName.Some?
    ensures CategoryStep(p, c, source, target) == Failed
  {
  }

  /** The author's overlay for `target` gets the translated bio; abandoned
      when it came back null. */
  function AuthorStep(p: Providers, a: Author, source: Language, target: Language): (r: Outcome<Author>)
    ensures TranslateLong(p, AuthorBio(a, source), source, target).None? <==> r.Skipped?
    ensures r.Saved? ==>
      r.entity == a.(translations := a.translations[target := AuthorTranslation(TranslateLong(p, AuthorBio(a, source), source, target))])
    ensures !r.Failed?
  {
    var bio := TranslateLong(p, AuthorBio(a, source), source, target);
    if bio.None? then Skipped
    else Saved(a.(translations := a.translations[target := AuthorTranslation(bio)]))
  }

  /** The tag's overlay for `target` gets the translated name; abandoned
      when it came back null. */
  function TagStep(p: Providers, t: Tag, source: Language, target: Language): (r: Outcome<Tag>)
    ensures TranslateShort(p, TagSourceName(t, source), source, target).None? <==> r.Skipped?
    ensures r.Saved? ==>
      r.entity == t.(translations := t.translations[target := TagTranslation(TranslateShort(p, TagSourceName(t, source), source, target))])
    ensures !r.Failed?
  {
    var name := TranslateShort(p, TagSourceName(t, source), source, target);
    if name.None? then Skipped
    else Saved(t.(translations := t.translations[target := TagTranslation(name)]))
  }

  function ArticleStepFn(p: Providers, source: Language): (Article, Language) -> Outcome<Article> {
    (a, target) => ArticleStep(p, a, source, target)
  }

  function CategoryStepFn(p: Providers, source: Language): (Category, Language) -> Outcome<Category> {
    (c, target) => CategoryStep(p, c, source, target)
  }

  function AuthorStepFn(p: Providers, source: Language): (Author, Language) -> Outcome<Author> {
    (a, target) => AuthorStep(p, a, source, target)
  }

  function TagStepFn(p: Providers, source: Language): (Tag, Language) -> Outcome<Tag> {
    (t, target) => TagStep(p, t, source, target)
  }

  // ---------------------------------------------------------------------
  // Closing tasks

  /** Whether markTaskDone(kind, id, lang) closes `t`. */
  predicate Closes(t: TranslationTask, kind: EntityType, id: int, lang: Language) {
    t.entityType == kind && t.entityId == id && t.targetLang == lang && t.status != DONE
  }

  function MarkOne(t: TranslationTask, kind: EntityType, id: int, lang: Language): (r: TranslationTask)
    ensures Closes(t, kind, id, lang) ==> r == t.(status := DONE)
    ensures !Closes(t, kind, id, lang) ==> r == t
  {
    if Closes(t, kind, id, lang) then t.(status := DONE) else t
  }

  /** markTaskDone as a function of the list of tasks. */
  function MarkDone(tasks: seq<TranslationTask>, kind: EntityType, id: int, lang: Language): (r: seq<TranslationTask>)
    ensures |r| == |tasks|
    ensures forall i :: 0 <= i < |tasks| ==> r[i] == MarkOne(tasks[i], kind, id, lang)
  {
    seq(|tasks|, i requires 0 <= i < |tasks| => MarkOne(tasks[i], kind, id, lang))
  }

  /** Afterwards every task of the entity for the language is DONE, every
      other task is as it was, and ids (so their uniqueness) are kept;
      closing twice is closing once. */
  lemma MarkDoneSpec(tasks: seq<TranslationTask>, kind: EntityType, id: int, lang: Language)
    ensures var r := MarkDone(tasks, kind, id, lang);
      forall i :: 0 <= i < |tasks| ==>
        r[i].id == tasks[i].id
        && (tasks[i].entityType == kind && tasks[i].entityId == id && tasks[i].targetLang == lang ==> r[i].status == DONE)
        && (!(tasks[i].entityType == kind && tasks[i].entityId == id && tasks[i].targetLang == lang) ==> r[i] == tasks[i])
    ensures TaskIdsUnique(tasks) ==> TaskIdsUnique(MarkDone(tasks, kind, id, lang))
    ensures MarkDone(MarkDone(tasks, kind, id, lang), kind, id, lang) == MarkDone(tasks, kind, id, lang)
  {
  }

  /** markTaskDone: sets DONE in place on each matching task. */
  method MarkTaskDone(st: Store, kind: EntityType, id: int, lang: Language)
    modifies st`tasks
    ensures st.tasks == MarkDone(old(st.tasks), kind, id, lang)
  {
    var i := 0;
    while i < |st.tasks|
      invariant 0 <= i <= |st.tasks| == |old(st.tasks)|
      invariant forall k :: 0 <= k < i ==> st.tasks[k] == MarkOne(old(st.tasks)[k], kind, id, lang)
      invariant forall k :: i <= k < |st.tasks| ==> st.tasks[k] == old(st.tasks)[k]
    {
      var t := st.tasks[i];
      if t.entityType == kind && t.entityId == id && t.targetLang == lang && t.status != DONE {
        st.tasks := st.tasks[i := t.(status := DONE)];
      }
      i := i + 1;
    }
  }

  // ---------------------------------------------------------------------
  // The run over all target languages

  /** One repository of entities together with the translation tasks. */
  datatype State<E> = State(entities: map<int, E>, tasks: seq<TranslationTask>)

  /** Where an exception the loop's try/catch swallows is raised during one
      `*ToLang` call. The call is not transactional (it is reached by
      self-invocation, past the transactional proxy), so each repository
      save commits on its own: an exception before the overlay's save
      leaves nothing written, one raised by markTaskDone after it leaves
      the overlay stored and the tasks open. */
  datatype Fault = NoFault | BeforeSave | AfterSave

  /** One `*ToLang` call inside the loop's try/catch: a missing entity, an
      abandoned language, a failing save and an exception before the save
      leave everything as it was; a save stores the entity, and closes the
      language's tasks unless markTaskDone then throws. */
  function StepState<E>(step: (E, Language) -> Outcome<E>, fault: Fault, kind: EntityType, id: int,
                        s: State<E>, target: Language): (r: State<E>)
    ensures fault == BeforeSave || id !in s.entities || !step(s.entities[id], target).Saved? ==> r == s
    ensures fault != BeforeSave && id in s.entities && step(s.entities[id], target).Saved? ==>
      && r.entities == s.entities[id := step(s.entities[id], target).entity]
      && r.tasks == (if fault == NoFault then MarkDone(s.tasks, kind, id, target) else s.tasks)
  {
    if fault == BeforeSave || id !in s.entities then s
    else match step(s.entities[id], target)
      case Saved(e) => State(s.entities[id := e], if fault == NoFault then MarkDone(s.tasks, kind, id, target) else s.tasks)
      case _ => s
  }

  /** A markTaskDone that throws after the save keeps the overlay the
      save wrote but leaves an open task for the language open, where the
      same call without the fault closes it. */
  lemma FaultAfterSaveLeavesTaskOpen<E>(step: (E, Language) -> Outcome<E>, kind: EntityType, id: int,
                                        s: State<E>, target: Language, i: int)
    requires id in s.entities && step(s.entities[id], target).Saved?
    requires 0 <= i < |s.tasks| && Closes(s.tasks[i], kind, id, target)
    ensures StepState(step, AfterSave, kind, id, s, target).entities == StepState(step, NoFault, kind, id, s, target).entities
    ensures StepState(step, AfterSave, kind, id, s, target).entities[id] == step(s.entities[id], target).entity
    ensures StepState(step, AfterSave, kind, id, s, target).tasks[i].status != DONE
    ensures StepState(step, NoFault, kind, id, s, target).tasks[i].status == DONE
  {
  }

  /** The loop over the target languages, in order. */
  function Run<E>(step: (E, Language) -> Outcome<E>, faults: Language -> Fault, kind: EntityType, id: int,
                  s: State<E>, targets: seq<Language>): (r: State<E>)
    ensures r.entities.Keys == s.entities.Keys
    decreases |targets|
  {
    if |targets| == 0 then s
    else Run(step, faults, kind, id, StepState(step, faults(targets[0]), kind, id, s, targets[0]), targets[1..])
  }

  /** A run touches only entity `id` and only the tasks of that entity for
      the target languages, which it can only close; no row appears or
      disappears. */
  lemma {:induction false} RunFrame<E>(step: (E, Language) -> Outcome<E>, faults: Language -> Fault, kind: EntityType, id: int,
                                       s: State<E>, targets: seq<Language>)
    ensures var r := Run(step, faults, kind, id, s, targets);
      r.entities.Keys == s.entities.Keys
      && (forall k :: k in s.entities && k != id ==> r.entities[k] == s.entities[k])
      && |r.tasks| == |s.tasks|
      && (forall i :: 0 <= i < |s.tasks| ==>
            r.tasks[i] == s.tasks[i]
            || (r.tasks[i] == s.tasks[i].(status := DONE) && s.tasks[i].entityType == kind
                && s.tasks[i].entityId == id && s.tasks[i].targetLang in targets))
    decreases |targets|
  {
    if |targets| > 0 {
      var s1 := StepState(step, faults(targets[0]), kind, id, s, targets[0]);
      RunFrame(step, faults, kind, id, s1, targets[1..]);
      var r := Run(step, faults, kind, id, s, targets);
      assert r == Run(step, faults, kind, id, s1, targets[1..]);
      forall i | 0 <= i < |s.tasks|
        ensures r.tasks[i] == s.tasks[i]
          || (r.tasks[i] == s.tasks[i].(status := DONE) && s.tasks[i].entityType == kind
              && s.tasks[i].entityId == id && s.tasks[i].targetLang in targets)
      {
        assert s1.tasks[i] == s.tasks[i] || (s1.tasks[i] == s.tasks[i].(status := DONE) && s.tasks[i].targetLang == targets[0]
          && s.tasks[i].entityType == kind && s.tasks[i].entityId == id);
        assert targets[0] in targets;
        assert forall l :: l in targets[1..] ==> l in targets;
      }
    }
  }

  /** Whether two overlay maps agree at language `l`. */
  predicate SameAt<O(==)>(m1: map<Language, O>, m2: map<Language, O>, l: Language) {
    (l in m1 <==> l in m2) && (l in m1 ==> m1[l] == m2[l])
  }

  /** The article step for `target` reads only the article's own fields
      and the overlays of the source and the target language. */
  lemma ArticleOverlayFrame(p: Providers, a: Article, b: Article, source: Language, target: Language)
    requires b.(translations := a.translations) == a
    requires SameAt(a.translations, b.translations, source) && SameAt(a.translations, b.translations, target)
    ensures ArticleOverlay(p, a, source, target) == ArticleOverlay(p, b, source, target)
  {
    assert TranslatedArticleTexts(p, a, source, target) == TranslatedArticleTexts(p, b, source, target);
  }

  /** The overlay an article ends up with for `l` after a run that starts
      from `a`: the one step for `l` computes from `a` itself, unless that
      step was abandoned or failed. */
  predicate ArticleOverlayAfter(p: Providers, faults: Language -> Fault, source: Language, targets: seq<Language>,
                                a: Article, b: Article, l: Language) {
    if l in targets && faults(l) != BeforeSave && ArticleOverlay(p, a, source, l).Some? then
      l in b.translations && b.translations[l] == ArticleOverlay(p, a, source, l).value
    else SameAt(a.translations, b.translations, l)
  }

  /** Languages are independent: after translating an article into each
      target, every target's overlay is what its own step computes from the
      article as it was before the run, whatever happened to the other
      targets (abandoned, failed, or swallowed exception); the article's own
      fields and the source overlay do not change. */
  lemma {:induction false} ArticleRunIndependent(p: Providers, faults: Language -> Fault, id: int,
                                                 s: State<Article>, source: Language, targets: seq<Language>)
    requires id in s.entities && Distinct(targets) && source !in targets
    ensures var a := s.entities[id];
      var b := Run(ArticleStepFn(p, source), faults, ARTICLE, id, s, targets).entities[id];
      b.(translations := a.translations) == a
      && forall l :: ArticleOverlayAfter(p, faults, source, targets, a, b, l)
    decreases |targets|
  {
    RunFrame(ArticleStepFn(p, source), faults, ARTICLE, id, s, targets);
    var a := s.entities[id];
    var b := Run(ArticleStepFn(p, source), faults, ARTICLE, id, s, targets).entities[id];
    if |targets| == 0 {
      forall l ensures ArticleOverlayAfter(p, faults, source, targets, a, b, l) { }
    } else {
      var t0 := targets[0];
      var s1 := StepState(ArticleStepFn(p, source), faults(t0), ARTICLE, id, s, t0);
      assert Distinct(targets[1..]);
      ArticleRunIndependent(p, faults, id, s1, source, targets[1..]);
      var a1 := s1.entities[id];
      assert b == Run(ArticleStepFn(p, source), faults, ARTICLE, id, s1, targets[1..]).entities[id];
      assert a1.(translations := a.translations) == a;
      forall l ensures ArticleOverlayAfter(p, faults, source, targets, a, b, l) {
        assert ArticleOverlayAfter(p, faults, source, targets[1..], a1, b, l);
        if l == t0 {
          assert l !in targets[1..];
        } else {
          assert SameAt(a.translations, a1.translations, l);
          if l in targets[1..] {
            assert SameAt(a.translations, a1.translations, source);
            ArticleOverlayFrame(p, a, a1, source, l);
          }
          assert l in targets <==> l in targets[1..];
        }
      }
    }
  }

  /** The category step for `target` reads only the category's own fields
      and the overlays of the source and the target language. */
  lemma CategoryStepFrame(p: Providers, c: Category, d: Category, source: Language, target: Language)
    requires d.(translations := c.translations) == c
    requires SameAt(c.translations, d.translations, source) && SameAt(c.translations, d.translations, target)
    ensures CategoryTranslatedTexts(p, c, source, target) == CategoryTranslatedTexts(p, d, source, target)
    ensures CategoryStep(p, c, source, target).Saved? <==> CategoryStep(p, d, source, target).Saved?
    ensures CategoryStep(p, c, source, target).Saved? ==>
      CategoryStep(p, c, source, target).entity.translations[target] == CategoryStep(p, d, source, target).entity.translations[target]
  {
    assert OverlayOrNew(c.translations, target, NewCategoryTranslation) == OverlayOrNew(d.translations, target, NewCategoryTranslation);
  }

  /** The overlay a category ends up with for `l` after a run from `c`. */
  predicate CategoryOverlayAfter(p: Providers, faults: Language -> Fault, source: Language, targets: seq<Language>,
                                 c: Category, d: Category, l: Language) {
    if l in targets && faults(l) != BeforeSave && CategoryStep(p, c, source, l).Saved? then
      l in d.translations && d.translations[l] == CategoryStep(p, c, source, l).entity.translations[l]
    else SameAt(c.translations, d.translations, l)
  }

  /** Languages are independent for categories too; in particular a target
      whose save fails on the missing name leaves the others to succeed. */
  lemma {:induction false} CategoryRunIndependent(p: Providers, faults: Language -> Fault, id: int,
                                                  s: State<Category>, source: Language, targets: seq<Language>)
    requires id in s.entities && Distinct(targets) && source !in targets
    ensures var c := s.entities[id];
      var d := Run(CategoryStepFn(p, source), faults, CATEGORY, id, s, targets).entities[id];
      d.(translations := c.translations) == c
      && forall l :: CategoryOverlayAfter(p, faults, source, targets, c, d, l)
    decreases |targets|
  {
    RunFrame(CategoryStepFn(p, source), faults, CATEGORY, id, s, targets);
    var c := s.entities[id];
    var d := Run(CategoryStepFn(p, source), faults, CATEGORY, id, s, targets).entities[id];
    if |targets| == 0 {
      forall l ensures CategoryOverlayAfter(p, faults, source, targets, c, d, l) { }
    } else {
      var t0 := targets[0];
      var s1 := StepState(CategoryStepFn(p, source), faults(t0), CATEGORY, id, s, t0);
      assert Distinct(targets[1..]);
      CategoryRunIndependent(p, faults, id, s1, source, targets[1..]);
      var c1 := s1.entities[id];
      assert d == Run(CategoryStepFn(p, source), faults, CATEGORY, id, s1, targets[1..]).entities[id];
      assert c1.(translations := c.translations) == c;
      forall l ensures CategoryOverlayAfter(p, faults, source, targets, c, d, l) {
        assert CategoryOverlayAfter(p, faults, source, targets[1..], c1, d, l);
        if l == t0 {
          assert l !in targets[1..];
        } else {
          assert SameAt(c.translations, c1.translations, l);
          if l in targets[1..] {
            assert SameAt(c.translations, c1.translations, source);
            CategoryStepFrame(p, c, c1, source, l);
          }
          assert l in targets <==> l in targets[1..];
        }
      }
    }
  }

  // ---------------------------------------------------------------------
  // The service methods

  /** translateArticleToLang; `fault` says where, if anywhere, an
      exception is raised during this call. */
  method TranslateArticleToLang(st: Store, p: Providers, id: int, source: Language, target: Language, fault: Fault)
    modifies st`articles, st`tasks
    ensures State(st.articles, st.tasks) ==
      StepState(ArticleStepFn(p, source), fault, ARTICLE, id, State(old(st.articles), old(st.tasks)), target)
  {
    if fault == BeforeSave || id !in st.articles { return; }
    var outcome := ArticleStep(p, st.articles[id], source, target);
    if outcome.Saved? {
      st.articles := st.articles[id := outcome.entity];
      if fault == NoFault {
        MarkTaskDone(st, ARTICLE, id, target);
      }
    }
  }

  /** translateArticle: nothing when auto-translation is off, otherwise
      one step per target language, each inside its own try/catch. */
  method TranslateArticle(st: Store, props: TranslationProperties.Properties, p: Providers,
                          faults: Language -> Fault, id: int, source: Language)
    modifies st`articles, st`tasks
    ensures !props.autoTranslate ==> st.articles == old(st.articles) && st.tasks == old(st.tasks)
    ensures props.autoTranslate ==>
      State(st.articles, st.tasks) == Run(ArticleStepFn(p, source), faults, ARTICLE, id, State(old(st.articles), old(st.tasks)), TargetLanguages(source))
  {
    if !props.autoTranslate { return; }
    var targets := TargetLanguages(source);
    var i := 0;
    while i < |targets|
      invariant 0 <= i <= |targets|
      invariant Run(ArticleStepFn(p, source), faults, ARTICLE, id, State(st.articles, st.tasks), targets[i..])
        == Run(ArticleStepFn(p, source), faults, ARTICLE, id, State(old(st.articles), old(st.tasks)), targets)
    {
      assert targets[i..][1..] == targets[i + 1..];
      TranslateArticleToLang(st, p, id, source, targets[i], faults(targets[i]));
      i := i + 1;
    }
  }

  method TranslateCategoryToLang(st: Store, p: Providers, id: int, source: Language, target: Language, fault: Fault)
    modifies st`categories, st`tasks
    ensures State(st.categories, st.tasks) ==
      StepState(CategoryStepFn(p, source), fault, CATEGORY, id, State(old(st.categories), old(st.tasks)), target)
  {
    if fault == BeforeSave || id !in st.categories { return; }
    var outcome := CategoryStep(p, st.categories[id], source, target);
    if outcome.Saved? {
      st.categories := st.categories[id := outcome.entity];
      if fault == NoFault {
        MarkTaskDone(st, CATEGORY, id, target);
      }
    }
  }

  method TranslateCategory(st: Store, props: TranslationProperties.Properties, p: Providers,
                           faults: Language -> Fault, id: int, source: Language)
    modifies st`categories, st`tasks
    ensures !props.autoTranslate ==> st.categories == old(st.categories) && st.tasks == old(st.tasks)
    ensures props.autoTranslate ==>
      State(st.categories, st.tasks) == Run(CategoryStepFn(p, source), faults, CATEGORY, id, State(old(st.categories), old(st.tasks)), TargetLanguages(source))
  {
    if !props.autoTranslate { return; }
    var targets := TargetLanguages(source);
    var i := 0;
    while i < |targets|
      invariant 0 <= i <= |targets|
      invariant Run(CategoryStepFn(p, source), faults, CATEGORY, id, State(st.categories, st.tasks), targets[i..])
        == Run(CategoryStepFn(p, source), faults, CATEGORY, id, State(old(st.categories), old(st.tasks)), targets)
    {
      assert targets[i..][1..] == targets[i + 1..];
      TranslateCategoryToLang(st, p, id, source, targets[i], faults(targets[i]));
      i := i + 1;
    }
  }

  method TranslateAuthorToLang(st: Store, p: Providers, id: int, source: Language, target: Language, fault: Fault)
    modifies st`authors, st`tasks
    ensures State(st.authors, st.tasks) ==
      StepState(AuthorStepFn(p, source), fault, AUTHOR, id, State(old(st.authors), old(st.tasks)), target)
  {
    if fault == BeforeSave || id !in st.authors { return; }
    var outcome := AuthorStep(p, st.authors[id], source, target);
    if outcome.Saved? {
      st.authors := st.authors[id := outcome.entity];
      if fault == NoFault {
        MarkTaskDone(st, AUTHOR, id, target);
      }
    }
  }

  method TranslateAuthor(st: Store, props: TranslationProperties.Properties, p: Providers,
                         faults: Language -> Fault, id: int, source: Language)
    modifies st`authors, st`tasks
    ensures !props.autoTranslate ==> st.authors == old(st.authors) && st.tasks == old(st.tasks)
    ensures props.autoTranslate ==>
      State(st.authors, st.tasks) == Run(AuthorStepFn(p, source), faults, AUTHOR, id, State(old(st.authors), old(st.tasks)), TargetLanguages(source))
  {
    if !props.autoTranslate { return; }
    var targets := TargetLanguages(source);
    var i := 0;
    while i < |targets|
      invariant 0 <= i <= |targets|
      invariant Run(AuthorStepFn(p, source), faults, AUTHOR, id, State(st.authors, st.tasks), targets[i..])
        == Run(AuthorStepFn(p, source), faults, AUTHOR, id, State(old(st.authors), old(st.tasks)), targets)
    {
      assert targets[i..][1..] == targets[i + 1..];
      TranslateAuthorToLang(st, p, id, source, targets[i], faults(targets[i]));
      i := i + 1;
    }
  }

  method TranslateTagToLang(st: Store, p: Providers, id: int, source: Language, target: Language, fault: Fault)
    modifies st`tags, st`tasks
    ensures State(st.tags, st.tasks) ==
      StepState(TagStepFn(p, source), fault, TAG, id, State(old(st.tags), old(st.tasks)), target)
  {
    if fault == BeforeSave || id !in st.tags { return; }
    var outcome := TagStep(p, st.tags[id], source, target);
    if outcome.Saved? {
      st.tags := st.tags[id := outcome.entity];
      if fault == NoFault {
        MarkTaskDone(st, TAG, id, target);
      }
    }
  }

  method TranslateTag(st: Store, props: TranslationProperties.Properties, p: Providers,
                      faults: Language -> Fault, id: int, source: Language)
    modifies st`tags, st`tasks
    ensures !props.autoTranslate ==> st.tags == old(st.tags) && st.tasks == old(st.tasks)
    ensures props.autoTranslate ==>
      State(st.tags, st.tasks) == Run(TagStepFn(p, source), faults, TAG, id, State(old(st.tags), old(st.tasks)), TargetLanguages(source))
  {
    if !props.autoTranslate { return; }
    var targets := TargetLanguages(source);
    var i := 0;
    while i < |targets|
      invariant 0 <= i <= |targets|
      invariant Run(TagStepFn(p, source), faults, TAG, id, State(st.tags, st.tasks), targets[i..])
        == Run(TagStepFn(p, source), faults, TAG, id, State(old(st.tags), old(st.tasks)), targets)
    {
      assert targets[i..][1..] == targets[i + 1..];
      TranslateTagToLang(st, p, id, source, targets[i], faults(targets[i]));
      i := i + 1;
    }
  }
}
