# tzr-blog translation core, modelled in Dafny

tzr-blog is a multilingual blog with a Spring backend and an Angular
frontend. Articles, categories, authors and tags are written in German (DE).
They carry per-language *overlays* for Portuguese (PT) and English (EN). This
project models the following parts of it and proves what they promise:

- **The localised views.** `TranslationResolver` picks each text field from the requested overlay, else the DE overlay, else the entity itself. `ArticleMapper` and `CategoryMapper` apply it, dump the raw overlays and build entities from admin forms.
- **The background translator** (`AutoTranslationService`). It chooses the target languages and reads the source text. It then calls a short-text or long-text strategy that falls back from one provider to the other, abandons a language when the defining fields stay null, merges only the non-null results, and closes the matching tasks.
- **The two provider clients.** For DeepL and Claude this covers their guards, language codes, request fields and response check. The HTTP exchange is an opaque function.
- **The translation-task ledger** (`TranslationTaskService`). It creates tasks idempotently, answers the reporting queries and lets an admin override a task's status.
- **Configuration and language choice** (`TranslationProperties`, `LanguageResolver`).
- **The CRUD services for articles, categories, authors and tags.** This covers:
  - slugs and slug conflicts, status and publish-date defaults;
  - the single featured article, soft and hard delete;
  - delete guards, reorder, tag delete and merge;
  - the wholesale overlay overwrite of `saveTranslations`;
  - which writes open translation tasks and which only dispatch a translation.
- **The newsletter's subscribe and confirm token cycle** (`NewsletterService`).
- **The public article list** (`PublicArticleController`). This covers its filter precedence, page-size cap and sort-string parsing.
- **The frontend reading-time pipe.**

Layout, one module per file:

| file | module | role |
|---|---|---|
| common.dfy | Common | `Option`, `Result`, Java exceptions as error values, `Language`, nullable strings (`Str`) |
| java_string.dfy | JavaString | the `java.lang.String` operations the core relies on (`trim`, `isBlank`, case mapping, `split`, decimal rendering) |
| model.dfy | Model | entities and overlays as datatypes; the repositories as one `Store` class with maps and sequences, the id counter, dispatched `@Async` jobs and sent mails |
| translation_resolver.dfy | TranslationResolver | the three-tier field choice and the overlay lookups |
| article_mapper.dfy, category_mapper.dfy | ArticleMapper, CategoryMapper | localised views, raw overlay dumps, `toEntity` |
| translation_properties.dfy | TranslationProperties | defaults and the "configured" predicates |
| language_resolver.dfy | LanguageResolver | `lang` parameter, then Accept-Language header, then default |
| provider_http.dfy, deepl_client.dfy, claude_client.dfy | ProviderHttp, DeepLClient, ClaudeClient | the provider clients over an opaque exchange |
| auto_translation.dfy | AutoTranslation | the translation run, step by step and as a whole |
| translation_task_service.dfy | TranslationTaskService | the translation-task ledger |
| overlays.dfy | Overlays | `saveTranslations`, shared by the three services that have it |
| article_service.dfy, category_service.dfy, author_service.dfy, tag_service.dfy | ArticleService, CategoryService, AuthorService, TagService | the CRUD rules |
| newsletter_service.dfy | NewsletterService | subscribe, confirm, count |
| public_article_controller.dfy | PublicArticleController | list dispatch, paging, sort parsing |
| reading_time.dfy | ReadingTime | the reading-time label |

Each service operation that changes the repositories has two parts:

- a function that computes the outcome on values. Examples are `ArticleService.NewArticle`, `TagService.Merged` and `NewsletterService.Subscribed`. The lemmas are stated about these functions.
- a method on the `Store` that performs the change. Its `ensures` ties the new state to that function and to the store invariant `Store.Valid`. The invariant covers unique slugs, existing references, unique task ids, named category overlays, one subscriber per email, a token only with an expiry, and ids below the counter.

Errors are `Result` values named after the Java exception the source raises:
- `NotFound` for ResourceNotFoundException;
- `SlugAlreadyExists`;
- `IllegalArgument`, `IllegalState` and `NullPointer`;
- `IncorrectResultSize` for a query that expects one row and finds several;
- `ConstraintViolation` for a NOT NULL or foreign-key violation at flush;
- `IndexOutOfBounds`;
- `Runtime` for the RuntimeException of a mail the mail server refused.

Every `@Transactional` service method that fails leaves the store unchanged, because it rolls back, with one exception. The category service's create and update dispatch their `@Async` translation run before the flush at commit. When that flush refuses a nameless overlay, the row rolls back but the dispatched run stays (`CategoryService.RefusedAtCommit`). Two parts of the core are not transactional:
- The newsletter service saves the subscriber row first and sends the mail second. A mail the server refuses raises, and the saved row stays.
- The translator's `*ToLang` steps are reached by self-invocation, past the transactional proxy, so each repository save commits on its own. An exception in markTaskDone after an overlay's save leaves that overlay stored and the task open (`AutoTranslation.Fault`).

Clocks, UUIDs and `SlugUtil.slugify` are parameters. An `@Async` call is an appended `TranslateJob`. The worker side of that job is `AutoTranslation.TranslateArticle` (and its siblings), with the providers and per-language faults given as functions.

## Model

| member | source | states |
|---|---|---|
| Common.LanguageValueOf | backend/src/main/java/de/tzr/config/LanguageResolver.java:14 | `Language.valueOf`: a language comes back only for that language's exact name |
| Common.LanguageNameRoundTrip | backend/src/main/java/de/tzr/config/LanguageResolver.java:14 | `valueOf(l.name())` is `l`, and `valueOf(s)` is `l` exactly when `s` is `l`'s name |
| Common.AllLanguagesComplete | backend/src/main/java/de/tzr/service/AutoTranslationService.java:237 | DE, PT and EN are all the language constants there are |
| Common.ParseLanguage | backend/src/main/java/de/tzr/service/ArticleService.java:243 | `Language.valueOf(dto.language())`: null raises NullPointerException, an unknown name IllegalArgumentException, a known name gives its language |
| Model.ParseArticleStatus | backend/src/main/java/de/tzr/service/ArticleService.java:137 | succeeds exactly for DRAFT, PUBLISHED and ARCHIVED, and the status's name is the string; otherwise NullPointerException or IllegalArgumentException |
| Model.ParseTaskStatus | backend/src/main/java/de/tzr/service/TranslationTaskService.java:68 | succeeds exactly for PENDING, IN_PROGRESS and DONE, and the status's name is the string; a failure is the NPE of a null name or the IAE of an unknown one |
| Model.ChosenSlug | backend/src/main/java/de/tzr/service/ArticleService.java:111 | the form's slug when it has text, otherwise the slugified name |
| Model.TaggedArticles | backend/src/main/java/de/tzr/service/TagService.java:33-34 | a tag's articles are exactly the stored articles whose tag set holds it |
| Model.Store.FreshId | backend/src/main/java/de/tzr/service/TagService.java:45 | saving a new row hands out the next identity value and advances the counter by one |
| JavaString.Trim | backend/src/main/java/de/tzr/config/LanguageResolver.java:20 | `trim`: never longer than the input; the result is a slice of the input with only characters up to U+0020 cut from either end, and it neither starts nor ends with one; empty exactly when every character is one |
| JavaString.TrimIdempotent | backend/src/main/java/de/tzr/config/LanguageResolver.java:20 | trimming twice is trimming once |
| JavaString.ToUpper | backend/src/main/java/de/tzr/config/LanguageResolver.java:14 | `toUpperCase` keeps the length and maps each character on its own (ASCII letters only) |
| JavaString.ToLower | backend/src/main/java/de/tzr/config/LanguageResolver.java:20 | `toLowerCase` keeps the length and maps each character on its own (ASCII letters only) |
| JavaString.BeforeFirst | backend/src/main/java/de/tzr/controller/PublicArticleController.java:76-77 | the text before the first separator: a prefix free of separators, followed by a separator unless it is the whole string |
| JavaString.DropTrailingEmpty | backend/src/main/java/de/tzr/controller/PublicArticleController.java:76 | `split` drops trailing empty pieces: a prefix of the pieces that ends non-empty, keeps every non-empty piece, and is empty exactly when all pieces are |
| JavaString.PiecesAllEmpty | backend/src/main/java/de/tzr/controller/PublicArticleController.java:76 | every piece between separators is empty exactly when the string holds separators only |
| JavaString.SplitSpec | backend/src/main/java/de/tzr/controller/PublicArticleController.java:76-77 | `split` yields no element exactly for a non-empty string of separators only; otherwise element 0 is the text before the first separator, and the elements are the leading pieces |
| JavaString.NatToString | backend/src/main/java/de/tzr/service/AuthorService.java:102 | a count renders as decimal digits without a leading zero |
| JavaString.NatToStringRoundTrip | backend/src/main/java/de/tzr/service/AuthorService.java:102 | reading the rendered digits back gives the count |
| JavaString.NatToStringInjective | backend/src/main/java/de/tzr/service/AuthorService.java:102 | different counts render differently |
| JavaString.IntToString | backend/src/main/java/de/tzr/service/TagService.java:53 | an id renders with a leading '-' exactly when negative |
| JavaString.IntToStringInjective | backend/src/main/java/de/tzr/service/TagService.java:53 | different ids give different renderings, so the not-found messages name the id |
| TranslationProperties.ConfiguredMeansKeyWithText | backend/src/main/java/de/tzr/config/TranslationProperties.java:30-36 | a provider is configured exactly when its key is non-null and holds a non-whitespace character |
| TranslationProperties.DefaultsLeaveProvidersUnconfigured | backend/src/main/java/de/tzr/config/TranslationProperties.java:12-27 | by default auto-translation is on and both keys are empty, so neither provider is configured; the default URLs and model are the literal strings |
| TranslationResolver.Resolve | backend/src/main/java/de/tzr/mapper/TranslationResolver.java:7-11 | the result is one of the three arguments; an entity field with text gives a result with text; a result with text came from an argument with text or is the entity field |
| TranslationResolver.FirstWithText | backend/src/main/java/de/tzr/mapper/TranslationResolver.java:7-11 | reference rule: the first candidate with text, else the last resort |
| TranslationResolver.ResolveIsFirstWithText | backend/src/main/java/de/tzr/mapper/TranslationResolver.java:7-11 | `resolve` is the first-with-text rule over primary and fallback, the entity field being the last resort |
| TranslationResolver.PrimaryWins | backend/src/main/java/de/tzr/mapper/TranslationResolver.java:8 | a primary with text is always returned |
| TranslationResolver.FallbackSecond | backend/src/main/java/de/tzr/mapper/TranslationResolver.java:9 | a null or blank primary gives way to a fallback with text |
| TranslationResolver.EntityFieldLast | backend/src/main/java/de/tzr/mapper/TranslationResolver.java:10 | with neither usable, the entity field comes back unchanged, even null or blank |
| TranslationResolver.OverlayFor | backend/src/main/java/de/tzr/mapper/ArticleMapper.java:27 | the stored overlay for the language, present exactly when one is stored |
| TranslationResolver.FallbackFor | backend/src/main/java/de/tzr/mapper/ArticleMapper.java:28 | the DE overlay, and only when no overlay exists for a requested language other than DE |
| TranslationResolver.FieldOf | backend/src/main/java/de/tzr/mapper/ArticleMapper.java:30 | an absent overlay gives null; a present one gives its field |
| TranslationResolver.LocaliseCases | backend/src/main/java/de/tzr/mapper/ArticleMapper.java:27-34 | a localised field, case by case: a stored overlay decides alone (its text, else the entity's field); only without one, and for a language other than DE, does the DE overlay's text come in |
| TranslationResolver.Dump | backend/src/main/java/de/tzr/mapper/ArticleMapper.java:38-42 | the raw overlay dump: each entry is a stored overlay with its language, no language twice, every stored overlay present |
| TranslationResolver.DumpNamesExact | backend/src/main/java/de/tzr/mapper/ArticleMapper.java:38-42 | a list with one entry per dumped overlay, each named after its overlay's language, names exactly the stored languages, each once |
| LanguageResolver.FromParam | backend/src/main/java/de/tzr/config/LanguageResolver.java:12-16 | a parameter selects a language only when it has text and its upper-cased form is the language's name, and every such parameter selects one |
| LanguageResolver.Resolve | backend/src/main/java/de/tzr/config/LanguageResolver.java:29-36 | the one-argument resolve: a parameter whose upper-cased form is a language's name selects that language; any other result than DE comes from such a parameter; without one, DE |
| LanguageResolver.PrimaryTag | backend/src/main/java/de/tzr/config/LanguageResolver.java:20 | the only failure of the header split is the index error |
| LanguageResolver.FromHeader | backend/src/main/java/de/tzr/config/LanguageResolver.java:19-26 | no header gives DE; the only failure is the index error, exactly for a non-empty header of separators alone; otherwise the text before the first separator, trimmed and lower-cased, picks PT for a "pt" prefix, then EN for "en", then DE for "de", and DE for anything else |
| LanguageResolver.ResolveWithHeader | backend/src/main/java/de/tzr/config/LanguageResolver.java:10-27 | a valid parameter wins over the header; otherwise the header decides |
| LanguageResolver.ParamAnyCase | backend/src/main/java/de/tzr/config/LanguageResolver.java:14 | any casing of a language's name selects that language, with or without a header |
| LanguageResolver.PrimaryTagSpec | backend/src/main/java/de/tzr/config/LanguageResolver.java:20 | the index fails exactly for a non-empty header of commas and semicolons only; otherwise the primary tag is the text before the first separator, trimmed and lower-cased |
| LanguageResolver.HeaderPrefixes | backend/src/main/java/de/tzr/config/LanguageResolver.java:19-26 | the primary tag's prefix chooses in the order pt, en, de; any other tag and a missing header give the default |
| LanguageResolver.SeparatorOnlyHeaderThrows | backend/src/main/java/de/tzr/config/LanguageResolver.java:20 | the header "," makes resolve throw IndexOutOfBoundsException |
| LanguageResolver.EmptyHeaderGivesDefault | backend/src/main/java/de/tzr/config/LanguageResolver.java:19-26 | an empty header does not throw and gives the default |
| ArticleMapper.ReadTime | backend/src/main/java/de/tzr/mapper/ArticleMapper.java:35-36 | reading time by null checks only: the requested overlay's value, else the fallback overlay's, else the article's |
| ArticleMapper.ToTagDTO | backend/src/main/java/de/tzr/mapper/ArticleMapper.java:82-87 | the tag name follows the overlay, DE, canonical rule; count 0 and no overlay list |
| ArticleMapper.TagDTOs | backend/src/main/java/de/tzr/mapper/ArticleMapper.java:48 | exactly one localised tag view per tag the article carries |
| ArticleMapper.RawTranslations | backend/src/main/java/de/tzr/mapper/ArticleMapper.java:38-42 | one raw entry per dumped overlay, carrying its language name and all six fields |
| ArticleMapper.ToDTO | backend/src/main/java/de/tzr/mapper/ArticleMapper.java:26-56 | the detail view: untranslated fields copied, category and tags localised in the same language, reading time by the null chain, the raw overlays listed |
| ArticleMapper.ToListDTO | backend/src/main/java/de/tzr/mapper/ArticleMapper.java:62-80 | the card view copies the same untranslated fields and uses the same reading-time rule |
| ArticleMapper.ToDefaultDTO | backend/src/main/java/de/tzr/mapper/ArticleMapper.java:22-24 | the one-argument `toDTO` is the DE view: DE overlay text, else the article's own |
| ArticleMapper.ToDefaultListDTO | backend/src/main/java/de/tzr/mapper/ArticleMapper.java:58-60 | the one-argument `toListDTO` is the DE card view |
| ArticleMapper.NoOverlayShowsCanonical | backend/src/main/java/de/tzr/mapper/ArticleMapper.java:27-36 | with no overlay for the language and none for DE, every localised field and the reading time are the article's own |
| ArticleMapper.OverlayTextWins | backend/src/main/java/de/tzr/mapper/ArticleMapper.java:30-34 | a field with text in the requested overlay wins, for all five text fields |
| ArticleMapper.ExistingOverlayShadowsDE | backend/src/main/java/de/tzr/mapper/ArticleMapper.java:28-36 | once an overlay for the language exists, its blank fields fall through to the article, never to the DE overlay |
| ArticleMapper.MissingOverlayUsesDE | backend/src/main/java/de/tzr/mapper/ArticleMapper.java:28-36 | without an overlay for a non-DE language, each field is the DE overlay's text where it has some, else the article's |
| ArticleMapper.ListAgreesWithDetail | backend/src/main/java/de/tzr/mapper/ArticleMapper.java:62-80 | the card and the detail view show the same title, excerpt, reading time, category, tags and slug |
| ArticleMapper.RawListOnePerOverlay | backend/src/main/java/de/tzr/mapper/ArticleMapper.java:38-42 | the raw list names every stored overlay exactly once, whatever language is asked for |
| CategoryMapper.RawTranslations | backend/src/main/java/de/tzr/mapper/CategoryMapper.java:32-35 | one raw entry per stored overlay, carrying its language name and three fields |
| CategoryMapper.ToDTO | backend/src/main/java/de/tzr/mapper/CategoryMapper.java:24-43 | id, slug, emoji, colours, type and sort order copied; the count is the argument; the raw overlays listed |
| CategoryMapper.ToDefaultDTO | backend/src/main/java/de/tzr/mapper/CategoryMapper.java:16-18 | count 0, and every localised field is the DE overlay's text or the category's own |
| CategoryMapper.ToCountedDTO | backend/src/main/java/de/tzr/mapper/CategoryMapper.java:20-22 | the given count, in the DE view |
| CategoryMapper.LocalisedFields | backend/src/main/java/de/tzr/mapper/CategoryMapper.java:25-30 | name, displayName and description each follow the overlay rule, the DE overlay only when none exists for the language |
| CategoryMapper.RawListOnePerOverlay | backend/src/main/java/de/tzr/mapper/CategoryMapper.java:32-35 | the raw list names every stored overlay exactly once |
| CategoryMapper.ToEntity | backend/src/main/java/de/tzr/mapper/CategoryMapper.java:45-57 | the chosen slug, sort order 0 when absent, the form's fields, no overlays; an unknown type name raises |
| ProviderHttp.FirstText | backend/src/main/java/de/tzr/service/DeepLTranslationClient.java:45-57 | the shared response check: text comes back exactly for a 2xx reply whose body has a non-empty array in the field, and it is the first element's text; every other outcome is null |
| DeepLClient.DeepLLang | backend/src/main/java/de/tzr/service/DeepLTranslationClient.java:60-66 | DE to "DE", PT to "PT-PT", EN to "EN" |
| DeepLClient.DeepLLangInjective | backend/src/main/java/de/tzr/service/DeepLTranslationClient.java:60-66 | different languages get different codes |
| DeepLClient.RequestFor | backend/src/main/java/de/tzr/service/DeepLTranslationClient.java:34-43 | the Authorization header "DeepL-Auth-Key " plus the key, the text and both language codes, the configured URL |
| DeepLClient.Translate | backend/src/main/java/de/tzr/service/DeepLTranslationClient.java:24-58 | null or blank text comes back unchanged before any configuration check; unconfigured gives null; otherwise the response check on the exchange's reply |
| DeepLClient.FailureGivesNull | backend/src/main/java/de/tzr/service/DeepLTranslationClient.java:52-57 | an exception or a non-2xx status gives null |
| ClaudeClient.LangName | backend/src/main/java/de/tzr/service/ClaudeTranslationClient.java:74-80 | DE to "German", PT to "Portuguese", EN to "English" |
| ClaudeClient.LangNameInjective | backend/src/main/java/de/tzr/service/ClaudeTranslationClient.java:74-80 | different languages get different names |
| ClaudeClient.SystemPrompt | backend/src/main/java/de/tzr/service/ClaudeTranslationClient.java:41-46 | the prompt opens with the fixed translator sentence |
| ClaudeClient.RequestFor | backend/src/main/java/de/tzr/service/ClaudeTranslationClient.java:33-57 | the x-api-key and anthropic-version headers, the given model, max_tokens 8192, the system prompt, one user message carrying the text, the configured URL |
| ClaudeClient.Translate | backend/src/main/java/de/tzr/service/ClaudeTranslationClient.java:25-72 | blank text comes back unchanged; without a key or a model the result is null; otherwise the response check on the reply's `content` array |
| ClaudeClient.UnconfiguredIgnoresExchange | backend/src/main/java/de/tzr/service/ClaudeTranslationClient.java:26-30 | without a key or a model no request is made: the outcome is the same whatever the exchange does |
| ClaudeClient.PromptNamesPairAndKeepsHtml | backend/src/main/java/de/tzr/service/ClaudeTranslationClient.java:38-46 | the system prompt names source and target language and carries the HTML-preservation directive |
| AutoTranslation.ClientProviders | backend/src/main/java/de/tzr/service/AutoTranslationService.java:217-231 | the two providers the strategies call are the two clients' `translate` |
| AutoTranslation.TranslateShort | backend/src/main/java/de/tzr/service/AutoTranslationService.java:215-222 | blank text unchanged without a provider; otherwise DeepL, and Claude only when DeepL gives null |
| AutoTranslation.TranslateLong | backend/src/main/java/de/tzr/service/AutoTranslationService.java:227-234 | blank text unchanged; otherwise Claude, and DeepL only when Claude gives null |
| AutoTranslation.LongIsShortSwapped | backend/src/main/java/de/tzr/service/AutoTranslationService.java:215-234 | the long strategy is the short one with the providers swapped |
| AutoTranslation.StrategiesNullOnlyWhenBothFail | backend/src/main/java/de/tzr/service/AutoTranslationService.java:215-234 | for text with content, a strategy gives null exactly when both providers do, and otherwise one of their answers; blank text passes through both |
| AutoTranslation.Without | backend/src/main/java/de/tzr/service/AutoTranslationService.java:237-239 | filtering keeps exactly the other languages |
| AutoTranslation.WithoutKeepsDistinct | backend/src/main/java/de/tzr/service/AutoTranslationService.java:237-239 | filtering a list without repeats leaves none |
| AutoTranslation.TargetLanguages | backend/src/main/java/de/tzr/service/AutoTranslationService.java:236-240 | the targets are exactly the languages other than the source |
| AutoTranslation.TargetLanguagesExact | backend/src/main/java/de/tzr/service/AutoTranslationService.java:236-240 | each target once, the source excluded, all two others present |
| AutoTranslation.ArticleField | backend/src/main/java/de/tzr/service/AutoTranslationService.java:251-273 | a non-default language with a stored overlay reads the overlay's field; otherwise the article's |
| AutoTranslation.CategoryField | backend/src/main/java/de/tzr/service/AutoTranslationService.java:275-293 | the same rule for category fields |
| AutoTranslation.AuthorBio | backend/src/main/java/de/tzr/service/AutoTranslationService.java:295-301 | the overlay's bio only when the language is not the default, an overlay is stored and its bio is non-null; otherwise the author's |
| AutoTranslation.TagSourceName | backend/src/main/java/de/tzr/service/AutoTranslationService.java:189-193 | the overlay's name, even null, when the language is not the default and an overlay is stored; otherwise the tag's |
| AutoTranslation.Keep | backend/src/main/java/de/tzr/service/AutoTranslationService.java:75-79 | a non-null translation replaces the field, a null one keeps it |
| AutoTranslation.OverlayOrNew | backend/src/main/java/de/tzr/service/AutoTranslationService.java:68-73 | the stored overlay for the target, else an empty one |
| AutoTranslation.MergeArticle | backend/src/main/java/de/tzr/service/AutoTranslationService.java:75-80 | partial merge: only non-null translations overwrite; reading time is always the article's |
| AutoTranslation.ArticleOverlay | backend/src/main/java/de/tzr/service/AutoTranslationService.java:51-80 | nothing is written exactly when title and body both translate to null; otherwise the merge onto the stored or new overlay |
| AutoTranslation.ArticleStep | backend/src/main/java/de/tzr/service/AutoTranslationService.java:47-85 | an abandoned language changes nothing; otherwise only the target overlay is replaced |
| AutoTranslation.BlankTitleIsKept | backend/src/main/java/de/tzr/service/AutoTranslationService.java:215-216 | a blank source title passes the strategy unchanged, so the language is not abandoned and the overlay gets that blank title |
| AutoTranslation.MergeCategory | backend/src/main/java/de/tzr/service/AutoTranslationService.java:123-125 | partial merge of the three category fields |
| AutoTranslation.CategoryStep | backend/src/main/java/de/tzr/service/AutoTranslationService.java:102-130 | abandoned exactly when name and displayName translate to null; fails when the merged overlay has no name (NOT NULL column); otherwise the merged overlay is saved |
| AutoTranslation.NamelessNewCategoryOverlayFails | backend/src/main/java/de/tzr/service/AutoTranslationService.java:114-127 | a new overlay whose name fails to translate while the display name succeeds cannot be saved |
| AutoTranslation.AuthorStep | backend/src/main/java/de/tzr/service/AutoTranslationService.java:147-168 | abandoned exactly when the bio translates to null; otherwise the overlay holds the translated bio; never fails |
| AutoTranslation.TagStep | backend/src/main/java/de/tzr/service/AutoTranslationService.java:185-210 | abandoned exactly when the name translates to null; otherwise the overlay holds the translated name; never fails |
| AutoTranslation.MarkOne | backend/src/main/java/de/tzr/service/AutoTranslationService.java:244-246 | a task closes exactly when it matches entity, id and target and is not DONE |
| AutoTranslation.MarkDone | backend/src/main/java/de/tzr/service/AutoTranslationService.java:242-249 | every task is closed or kept by that rule, the list keeps its length |
| AutoTranslation.MarkDoneSpec | backend/src/main/java/de/tzr/service/AutoTranslationService.java:242-249 | matching tasks become DONE, all others are untouched, ids are kept and stay unique, and closing twice is closing once |
| AutoTranslation.MarkTaskDone | backend/src/main/java/de/tzr/service/AutoTranslationService.java:242-249 | the list of tasks becomes the closed list |
| AutoTranslation.StepState | backend/src/main/java/de/tzr/service/AutoTranslationService.java:38-83 | an exception before the save, a missing entity, an abandoned step or a failed save change nothing; a saved step replaces the entity, and closes its open tasks for that language unless markTaskDone then throws, which leaves the tasks as they were |
| AutoTranslation.FaultAfterSaveLeavesTaskOpen | backend/src/main/java/de/tzr/service/AutoTranslationService.java:82-83 | a markTaskDone that throws after the save keeps the overlay the save wrote but leaves an open task for the language open, where the same call without the fault closes it |
| AutoTranslation.Run | backend/src/main/java/de/tzr/service/AutoTranslationService.java:33-44 | a run over the targets never adds or removes entities |
| AutoTranslation.RunFrame | backend/src/main/java/de/tzr/service/AutoTranslationService.java:33-44 | a run changes only the one entity, and a task only by closing one of that entity's for a target language |
| AutoTranslation.ArticleOverlayFrame | backend/src/main/java/de/tzr/service/AutoTranslationService.java:47-80 | the overlay a step writes depends only on the article's fields and its source and target overlays |
| AutoTranslation.ArticleRunIndependent | backend/src/main/java/de/tzr/service/AutoTranslationService.java:37-43 | a failing language does not stop the others: each target's overlay after the run is exactly what its own step gives, unless that step failed before its save, and only overlays change |
| AutoTranslation.CategoryStepFrame | backend/src/main/java/de/tzr/service/AutoTranslationService.java:102-127 | a category step depends only on the fields and the source and target overlays |
| AutoTranslation.CategoryRunIndependent | backend/src/main/java/de/tzr/service/AutoTranslationService.java:92-98 | the same independence for category runs |
| AutoTranslation.TranslateArticleToLang | backend/src/main/java/de/tzr/service/AutoTranslationService.java:47-85 | articles and tasks become the outcome of one step, the fault saying where an exception, if any, is raised |
| AutoTranslation.TranslateArticle | backend/src/main/java/de/tzr/service/AutoTranslationService.java:33-44 | with auto-translation off nothing changes; otherwise the run over all targets |
| AutoTranslation.TranslateCategoryToLang | backend/src/main/java/de/tzr/service/AutoTranslationService.java:102-130 | categories and tasks become the outcome of one step, the fault saying where an exception, if any, is raised |
| AutoTranslation.TranslateCategory | backend/src/main/java/de/tzr/service/AutoTranslationService.java:88-99 | off changes nothing; otherwise the run |
| AutoTranslation.TranslateAuthorToLang | backend/src/main/java/de/tzr/service/AutoTranslationService.java:147-168 | authors and tasks become the outcome of one step, the fault saying where an exception, if any, is raised |
| AutoTranslation.TranslateAuthor | backend/src/main/java/de/tzr/service/AutoTranslationService.java:133-144 | off changes nothing; otherwise the run |
| AutoTranslation.TranslateTagToLang | backend/src/main/java/de/tzr/service/AutoTranslationService.java:185-210 | tags and tasks become the outcome of one step, the fault saying where an exception, if any, is raised |
| AutoTranslation.TranslateTag | backend/src/main/java/de/tzr/service/AutoTranslationService.java:171-182 | off changes nothing; otherwise the run |
| TranslationTaskService.NewTask | backend/src/main/java/de/tzr/service/TranslationTaskService.java:30-36 | a new task is PENDING, from DE, and open for its entity and target |
| TranslationTaskService.AddIfMissing | backend/src/main/java/de/tzr/service/TranslationTaskService.java:27-38 | a task is added, with the next id, exactly when no open task exists for entity and language |
| TranslationTaskService.AddIfMissingKeepsOpen | backend/src/main/java/de/tzr/service/TranslationTaskService.java:26-39 | adding for one language keeps the other language's open task |
| TranslationTaskService.CreateTasksSpec | backend/src/main/java/de/tzr/service/TranslationTaskService.java:25-40 | existing tasks are a kept prefix; afterwards PT and EN each have an open task; new tasks are PENDING from DE with consecutive ids; one is added per language with no open task, so a DONE task does not block |
| TranslationTaskService.CreateTasksIdempotent | backend/src/main/java/de/tzr/service/TranslationTaskService.java:25-40 | a second call right after the first adds nothing |
| TranslationTaskService.CreateTasksForEntity | backend/src/main/java/de/tzr/service/TranslationTaskService.java:25-40 | the ledger becomes the computed one |
| TranslationTaskService.CreateTasksKeepsIds | backend/src/main/java/de/tzr/service/TranslationTaskService.java:37 | task ids stay unique and below the counter |
| TranslationTaskService.CreateTasksKeepValid | backend/src/main/java/de/tzr/service/TranslationTaskService.java:25-40 | the store invariant survives task creation |
| TranslationTaskService.ResolveEntityTitle | backend/src/main/java/de/tzr/service/TranslationTaskService.java:81-88 | a stored non-null article title, category displayName, author name or tag name is the title shown |
| TranslationTaskService.MissingEntityIsUnknown | backend/src/main/java/de/tzr/service/TranslationTaskService.java:81-88 | a missing row and a row whose title field is null both give "Unknown Article/Category/Author/Tag" |
| TranslationTaskService.ToDTO | backend/src/main/java/de/tzr/service/TranslationTaskService.java:72-79 | the view carries the ids, the resolved title and the enum names |
| TranslationTaskService.WithStatus | backend/src/main/java/de/tzr/service/TranslationTaskService.java:44 | exactly the tasks with that status |
| TranslationTaskService.PendingTasks | backend/src/main/java/de/tzr/service/TranslationTaskService.java:43-47 | one view per PENDING task, every PENDING task present, and every view in the list says PENDING |
| TranslationTaskService.AllTasks | backend/src/main/java/de/tzr/service/TranslationTaskService.java:50-54 | one view per task, in stored order: the i-th view is the i-th task's |
| TranslationTaskService.Views | backend/src/main/java/de/tzr/service/TranslationTaskService.java:43-54 | one view per task, in list order, each the view of its task |
| TranslationTaskService.ViewsShowingStatus | backend/src/main/java/de/tzr/service/TranslationTaskService.java:43-54 | filtering the views by a status's name gives the views of the tasks filtered by that status |
| TranslationTaskService.AllTasksPendingArePendingTasks | backend/src/main/java/de/tzr/service/TranslationTaskService.java:43-54 | the PENDING entries of getAllTasks are exactly getPendingTasks, in the same order |
| TranslationTaskService.CountStatus | backend/src/main/java/de/tzr/service/TranslationTaskService.java:59-61 | the number of tasks with that status |
| TranslationTaskService.GetStats | backend/src/main/java/de/tzr/service/TranslationTaskService.java:57-63 | the three per-status counts |
| TranslationTaskService.StatsCoverAllTasks | backend/src/main/java/de/tzr/service/TranslationTaskService.java:57-63 | the three counts add up to the number of tasks |
| TranslationTaskService.IndexOfId | backend/src/main/java/de/tzr/service/TranslationTaskService.java:66-67 | the position of the translation task with that id, or none when no task has it |
| TranslationTaskService.UpdateStatus | backend/src/main/java/de/tzr/service/TranslationTaskService.java:65-70 | an unknown id gives not found and changes nothing; an unknown status name gives the valueOf error and changes nothing; a known id with a valid name always succeeds; then only that task's status changes, to the named one, and the result is the view of the updated task in the updated store |
| Overlays.Submitted | backend/src/main/java/de/tzr/service/ArticleService.java:241 | a null list saves nothing |
| Overlays.Latest | backend/src/main/java/de/tzr/service/ArticleService.java:242-258 | what the loop leaves for a language: the fields of a submitted entry for it, none when none was submitted |
| Overlays.SaveAll | backend/src/main/java/de/tzr/service/ArticleService.java:240-260 | a failure is the valueOf error of a language name |
| Overlays.SaveAllSpec | backend/src/main/java/de/tzr/service/ArticleService.java:240-260 | succeeds exactly when every submitted language is valid; then each submitted language's overlay is wholly the last submitted fields, nulls included, and every other overlay is kept |
| Overlays.SaveOverlays | backend/src/main/java/de/tzr/service/ArticleService.java:240-260 | the loop computes the overlay map above |
| Overlays.SaveAllStaysFailed | backend/src/main/java/de/tzr/service/ArticleService.java:243 | once an entry raises, the later entries change nothing |
| ArticleService.FoundTags | backend/src/main/java/de/tzr/service/ArticleService.java:121-124 | the stored tags among the requested ids; none when the ids are null |
| ArticleService.PublishDefault | backend/src/main/java/de/tzr/service/ArticleService.java:146-148 | a PUBLISHED article gets a date, today's when it had none; a given date is kept |
| ArticleService.NewArticle | backend/src/main/java/de/tzr/service/ArticleService.java:110-151 | create fails, in order, on a taken slug, a missing category or a missing author, a bad status or language name; otherwise every field comes from the form, status DRAFT, academic and featured false when absent, a PUBLISHED article without a date is dated today and any other date is the form's, overlays saved wholesale |
| ArticleService.UpdateSpec | backend/src/main/java/de/tzr/service/ArticleService.java:158-199 | update: not found; a slug conflict only for a changed slug; otherwise status, academic, featured and date kept when absent, tags replaced only when given, a PUBLISHED article left without a date is dated today and an undated other one stays undated, overlays overwritten from the old ones |
| ArticleService.UnchangedSlugNeverConflicts | backend/src/main/java/de/tzr/service/ArticleService.java:163 | keeping the slug never raises a slug conflict |
| ArticleService.ChangedStatus | backend/src/main/java/de/tzr/service/ArticleService.java:205-213 | not found, or the valueOf error; otherwise only status and date change: a stored date is kept, and a missing one becomes today exactly when the new status is PUBLISHED |
| ArticleService.FeaturedPublished | backend/src/main/java/de/tzr/service/ArticleService.java:219 | exactly the featured PUBLISHED articles |
| ArticleService.Unfeatured | backend/src/main/java/de/tzr/service/ArticleService.java:219-223 | exactly the featured PUBLISHED articles lose the flag |
| ArticleService.Toggled | backend/src/main/java/de/tzr/service/ArticleService.java:215-227 | not found; for an unfeatured article, several featured PUBLISHED ones raise IncorrectResultSize; otherwise the article flips and only a featured PUBLISHED one may be unfeatured, leaving at most the article itself featured and PUBLISHED |
| ArticleService.ToggleKeepsSingleFeatured | backend/src/main/java/de/tzr/service/ArticleService.java:215-227 | with at most one featured PUBLISHED article, toggling succeeds and keeps at most one |
| ArticleService.Deleted | backend/src/main/java/de/tzr/service/ArticleService.java:229-238 | not found; hard delete removes the article; soft delete sets ARCHIVED and nothing else; others untouched |
| ArticleService.InsertKeepsValid | backend/src/main/java/de/tzr/service/ArticleService.java:150 | saving a new article with a free slug and existing references keeps the invariant |
| ArticleService.ReplaceKeepsValid | backend/src/main/java/de/tzr/service/ArticleService.java:198 | saving an updated article keeps the invariant |
| ArticleService.BuildArticle | backend/src/main/java/de/tzr/service/ArticleService.java:110-151 | the builder and lookups compute the create outcome |
| ArticleService.Create | backend/src/main/java/de/tzr/service/ArticleService.java:110-156 | on error nothing changes; otherwise the article is saved under a fresh id, tasks are opened and one translation job is dispatched |
| ArticleService.InsertArticle | backend/src/main/java/de/tzr/service/ArticleService.java:150-153 | save, open tasks, dispatch the job, nothing else |
| ArticleService.BuildUpdate | backend/src/main/java/de/tzr/service/ArticleService.java:158-199 | the setter sequence computes the update outcome |
| ArticleService.Update | backend/src/main/java/de/tzr/service/ArticleService.java:158-203 | on error nothing changes; otherwise the article is replaced and a job dispatched, and no task is opened |
| ArticleService.ChangeStatus | backend/src/main/java/de/tzr/service/ArticleService.java:205-213 | the store follows the status outcome |
| ArticleService.FindFeaturedPublished | backend/src/main/java/de/tzr/service/ArticleService.java:219 | the single-result query: none, the one, or IncorrectResultSize for several |
| ArticleService.ClearSingle | backend/src/main/java/de/tzr/service/ArticleService.java:220-223 | with one featured PUBLISHED article, unfeaturing touches that one only |
| ArticleService.ClearFeatured | backend/src/main/java/de/tzr/service/ArticleService.java:218-224 | the query and the unfeaturing: the error leaves articles unchanged |
| ArticleService.ToggleFeatured | backend/src/main/java/de/tzr/service/ArticleService.java:215-227 | the store follows the toggle outcome |
| ArticleService.SetFeatured | backend/src/main/java/de/tzr/service/ArticleService.java:225-226 | the article takes the new flag, nothing else changes, and the store stays valid |
| ArticleService.Delete | backend/src/main/java/de/tzr/service/ArticleService.java:229-238 | the store follows the delete outcome |
| CategoryService.SavedOverlays | backend/src/main/java/de/tzr/service/CategoryService.java:121-138 | success exactly when the wholesale overwrite succeeds, every overlay the loop creates has a name and every overlay at commit has one; then the result is that overwrite; any error is a constraint violation or the overwrite's own error, and an overwrite error is never hidden |
| CategoryService.Inserted | backend/src/main/java/de/tzr/service/CategoryService.java:121-138 | the loop: when it gets through, its overlays are the wholesale overwrite; an error is a constraint violation or the overwrite's own error; an overwrite error always stops it |
| CategoryService.InsertedSpec | backend/src/main/java/de/tzr/service/CategoryService.java:123-137 | the loop gets through exactly when every language parses and every overlay it creates (first submission, no stored overlay) has a name |
| CategoryService.NamelessInsertRefusedAtOnce | backend/src/main/java/de/tzr/service/CategoryService.java:126-136 | a nameless first PT entry is refused even though a later PT entry names the overlay, and even though the final overlays would all be named |
| CategoryService.RefusedAtCommitSpec | backend/src/main/java/de/tzr/service/CategoryService.java:121-138 | the loop gets through yet the commit refuses exactly when every language parses, every created overlay is named and the final map holds a nameless overlay; the error is then the constraint violation |
| CategoryService.RenamedToNullRefusedAtCommit | backend/src/main/java/de/tzr/service/CategoryService.java:123-136 | `[PT "x", PT null]` on a new category passes the loop and is refused at commit |
| CategoryService.StoredNamedNullRefusedAtCommit | backend/src/main/java/de/tzr/service/CategoryService.java:123-136 | `[PT null]` over a stored, named PT overlay passes the loop and is refused at commit |
| CategoryService.RefusalOrder | backend/src/main/java/de/tzr/service/CategoryService.java:124-136 | a nameless insert is refused before a later unknown language is parsed; a nameless update of a stored overlay is not, so the unknown language is then the error |
| CategoryService.SaveTranslations | backend/src/main/java/de/tzr/service/CategoryService.java:121-138 | the loop method computes the loop function |
| CategoryService.InsertedStaysFailed | backend/src/main/java/de/tzr/service/CategoryService.java:123-137 | once a prefix of the list fails, the whole list fails with the same error |
| CategoryService.NewCategory | backend/src/main/java/de/tzr/service/CategoryService.java:62-70 | a taken slug raises; success exactly for a free slug, a known type and savable overlays; the chosen slug, the form's name, display name, description, emoji and colours, sort order 0 when absent, and the saved overlays; a create refused at commit is the constraint violation |
| CategoryService.UpdatedCategory | backend/src/main/java/de/tzr/service/CategoryService.java:76-96 | not found; a slug conflict only for a changed slug; every field overwritten, sort order kept when absent, overlays overwritten; an update refused at commit is the constraint violation |
| CategoryService.ArticleCount | backend/src/main/java/de/tzr/service/CategoryService.java:104 | exactly the number of articles filed under the category; zero exactly when none is |
| CategoryService.Deleted | backend/src/main/java/de/tzr/service/CategoryService.java:101-110 | not found; any article in it raises IllegalState with the count and removes nothing; otherwise only that category is removed |
| CategoryService.Reordered | backend/src/main/java/de/tzr/service/CategoryService.java:112-119 | reorder keeps the set of categories |
| CategoryService.LastIndex | backend/src/main/java/de/tzr/service/CategoryService.java:113-116 | the last position holding the id, or none |
| CategoryService.ReorderSpec | backend/src/main/java/de/tzr/service/CategoryService.java:112-119 | succeeds exactly when every listed id exists; then a listed category's sort order is its last position, every other field and every unlisted category kept |
| CategoryService.PositionIsSortOrder | backend/src/main/java/de/tzr/service/CategoryService.java:113-116 | for distinct existing ids, the i-th gets sort order i |
| CategoryService.BuildCategory | backend/src/main/java/de/tzr/service/CategoryService.java:62-70 | computes the create outcome |
| CategoryService.Create | backend/src/main/java/de/tzr/service/CategoryService.java:62-74 | an error before the dispatch changes nothing; a refusal at commit leaves only the dispatched job, for the identity value the rolled-back row drew, and that value is not reused; otherwise save, open tasks, dispatch one job |
| CategoryService.InsertCategory | backend/src/main/java/de/tzr/service/CategoryService.java:69-72 | save, open tasks, dispatch the job, nothing else |
| CategoryService.BuildUpdate | backend/src/main/java/de/tzr/service/CategoryService.java:76-96 | computes the update outcome |
| CategoryService.Update | backend/src/main/java/de/tzr/service/CategoryService.java:76-99 | an error before the dispatch changes nothing; a refusal at commit leaves the row as it was and only the dispatched job; otherwise replace and dispatch a job, no task opened |
| CategoryService.Delete | backend/src/main/java/de/tzr/service/CategoryService.java:101-110 | the store follows the delete outcome |
| CategoryService.Reorder | backend/src/main/java/de/tzr/service/CategoryService.java:112-119 | the loop computes the reorder outcome; on error nothing changes |
| CategoryService.ReorderStaysFailed | backend/src/main/java/de/tzr/service/CategoryService.java:114-115 | once an id is unknown, the rest of the list changes nothing |
| AuthorService.ArticlesBy | backend/src/main/java/de/tzr/service/AuthorService.java:99 | exactly the articles of the author |
| AuthorService.GroupedCounts | backend/src/main/java/de/tzr/service/AuthorService.java:35-36 | the grouped count: a key exactly for authors with articles, the value their number |
| AuthorService.ArticleCounts | backend/src/main/java/de/tzr/service/AuthorService.java:34-40 | a count for every author |
| AuthorService.ArticleCountsExact | backend/src/main/java/de/tzr/service/AuthorService.java:35-38 | each author's count is the number of its articles, and 0 for one absent from the grouping |
| AuthorService.NewAuthor | backend/src/main/java/de/tzr/service/AuthorService.java:61-69 | a taken slug raises; otherwise the chosen slug, the form's fields and the overlays saved wholesale |
| AuthorService.UpdatedAuthor | backend/src/main/java/de/tzr/service/AuthorService.java:75-91 | not found; a slug conflict only for a changed slug; name, slug, bio, email and avatar overwritten unconditionally; overlays overwritten |
| AuthorService.UpdateOverwritesBio | backend/src/main/java/de/tzr/service/AuthorService.java:107-122 | each submitted language's overlay bio is the submitted bio |
| AuthorService.Deleted | backend/src/main/java/de/tzr/service/AuthorService.java:96-105 | not found; an author with articles raises IllegalState with the count; otherwise only that author is removed |
| AuthorService.BuildAuthor | backend/src/main/java/de/tzr/service/AuthorService.java:61-69 | computes the create outcome |
| AuthorService.Create | backend/src/main/java/de/tzr/service/AuthorService.java:61-73 | on error nothing changes; otherwise save, open tasks, dispatch one job |
| AuthorService.InsertAuthor | backend/src/main/java/de/tzr/service/AuthorService.java:68-71 | save, open tasks, dispatch the job, nothing else |
| AuthorService.Update | backend/src/main/java/de/tzr/service/AuthorService.java:75-94 | on error nothing changes; otherwise replace and dispatch a job, no task opened |
| AuthorService.Delete | backend/src/main/java/de/tzr/service/AuthorService.java:96-105 | the store follows the delete outcome |
| TagService.Listing | backend/src/main/java/de/tzr/service/TagService.java:27-37 | one entry per tag with its name, slug, the number of its articles and its overlay names |
| TagService.UnusedTagCountsZero | backend/src/main/java/de/tzr/service/TagService.java:33-34 | an id that is no tag is carried by no article |
| TagService.Retagged | backend/src/main/java/de/tzr/service/TagService.java:80-83 | each article carrying the tag swaps it for the replacement; all others and all other fields untouched |
| TagService.DeleteUntags | backend/src/main/java/de/tzr/service/TagService.java:68-70 | after removal no article carries the tag, and each lost exactly that tag |
| TagService.MergeRetags | backend/src/main/java/de/tzr/service/TagService.java:80-83 | every former carrier has the target and not the source; others unchanged; the target's articles are the union of both |
| TagService.RetagKeepsValid | backend/src/main/java/de/tzr/service/TagService.java:68-84 | retagging then deleting the source keeps the invariant |
| TagService.Merged | backend/src/main/java/de/tzr/service/TagService.java:74-85 | source, then target not found; merging a tag into itself fails on a foreign-key violation when it has articles; otherwise the source is deleted |
| TagService.SelfMergeOfUnusedTag | backend/src/main/java/de/tzr/service/TagService.java:80-84 | merging an unused tag into itself just deletes it |
| TagService.Create | backend/src/main/java/de/tzr/service/TagService.java:39-49 | the slug is the slugified name and a taken one raises; otherwise a tag with no articles, tasks opened, one job dispatched |
| TagService.Update | backend/src/main/java/de/tzr/service/TagService.java:51-63 | not found; a slug conflict only for a changed slug; otherwise name and slug replaced, no task and no job |
| TagService.ReplaceTag | backend/src/main/java/de/tzr/service/TagService.java:68-70 | the loop over the tag's articles computes the retagging |
| TagService.Delete | backend/src/main/java/de/tzr/service/TagService.java:65-72 | not found changes nothing; otherwise no article keeps the tag and the tag is gone |
| TagService.Merge | backend/src/main/java/de/tzr/service/TagService.java:74-85 | the store follows the merge outcome |
| NewsletterService.WithEmail | backend/src/main/java/de/tzr/service/NewsletterService.java:20 | exactly the subscribers with that email |
| NewsletterService.Holders | backend/src/main/java/de/tzr/service/NewsletterService.java:49 | exactly the subscribers holding that token |
| NewsletterService.EmailFindsOne | backend/src/main/java/de/tzr/service/NewsletterService.java:20 | with unique emails a found subscriber is the only one |
| NewsletterService.Subscribed | backend/src/main/java/de/tzr/service/NewsletterService.java:19-46 | two rows with the email raise IncorrectResultSize; a confirmed email gets the "already subscribed" message and nothing changes; an unconfirmed one gets a new token, expiry now + 24 h and a verification mail; a new email gets a subscriber with token and expiry, and a mail; a mail the server refuses is not sent and the reply is the RuntimeException |
| NewsletterService.Confirmed | backend/src/main/java/de/tzr/service/NewsletterService.java:48-63 | unknown token: invalid link; two holders: IncorrectResultSize; no expiry: NullPointerException; expiry before now: expired link; otherwise confirmed, token and expiry cleared, a welcome mail, or the RuntimeException when the server refuses it |
| NewsletterService.SubscribeKeepsValid | backend/src/main/java/de/tzr/service/NewsletterService.java:19-46 | subscribing keeps one subscriber per email and a token only with an expiry |
| NewsletterService.ConfirmKeepsValid | backend/src/main/java/de/tzr/service/NewsletterService.java:56-59 | confirming keeps the invariant |
| NewsletterService.LinkWorksWithinLifetime | backend/src/main/java/de/tzr/service/NewsletterService.java:30-59 | a fresh link confirms the subscriber at any time up to 24 h later |
| NewsletterService.LinkExpires | backend/src/main/java/de/tzr/service/NewsletterService.java:52-54 | the same link later than 24 h is rejected as expired |
| NewsletterService.ConfirmOnlyOnce | backend/src/main/java/de/tzr/service/NewsletterService.java:56-59 | a token cannot confirm twice |
| NewsletterService.SubscribeCount | backend/src/main/java/de/tzr/service/NewsletterService.java:65-67 | subscribing adds one row exactly for a new email |
| NewsletterService.ConfirmCount | backend/src/main/java/de/tzr/service/NewsletterService.java:65-67 | confirming keeps the number of rows |
| NewsletterService.SubscribeMailFailureKeepsRows | backend/src/main/java/de/tzr/service/NewsletterService.java:28-45 | a refused verification mail changes neither whether subscribe succeeds nor the saved rows nor the id counter; it sends nothing, and the reply becomes the RuntimeException exactly where a mail was due |
| NewsletterService.FailedWelcomeMailStillConfirms | backend/src/main/java/de/tzr/service/NewsletterService.java:56-61 | a refused welcome mail still confirms the subscriber and clears the token, so the link is invalid when retried |
| NewsletterService.SendMail | backend/src/main/java/de/tzr/service/EmailService.java:85-102 | the mail joins the outbox exactly when the server accepts it, and the method reports whether it did |
| NewsletterService.Subscribe | backend/src/main/java/de/tzr/service/NewsletterService.java:19-46 | with the invariant, the subscribe outcome always succeeds; the store, the id counter and the mails follow it, the row is saved even when the mail is refused, and the reply is the outcome's |
| NewsletterService.Confirm | backend/src/main/java/de/tzr/service/NewsletterService.java:48-63 | errors change nothing; on success the store follows the confirm outcome even when the welcome mail is refused, the mails follow it, and the reply is the outcome's |
| NewsletterService.GetCount | backend/src/main/java/de/tzr/service/NewsletterService.java:65-67 | the number of subscriber rows |
| PublicArticleController.Min | backend/src/main/java/de/tzr/controller/PublicArticleController.java:35 | `Math.min` |
| PublicArticleController.PageRequestOf | backend/src/main/java/de/tzr/controller/PublicArticleController.java:80 | the page request: a negative page or a size below one raises, with Spring's messages |
| PublicArticleController.SortBy | backend/src/main/java/de/tzr/controller/PublicArticleController.java:80 | `Sort.by`: a blank property raises |
| PublicArticleController.DirectionSpec | backend/src/main/java/de/tzr/controller/PublicArticleController.java:78-79 | ASC exactly when a second part exists and equals "asc" ignoring case |
| PublicArticleController.CreatePageable | backend/src/main/java/de/tzr/controller/PublicArticleController.java:75-81 | a non-empty sort made of commas only fails at `parts[0]`; a blank field raises; otherwise the field is the text before the first comma and the direction follows the rule above |
| PublicArticleController.DescendingByFirstPart | backend/src/main/java/de/tzr/controller/PublicArticleController.java:76-80 | a field with text and no "asc" second part sort descending by that field |
| PublicArticleController.SortFromParts | backend/src/main/java/de/tzr/controller/PublicArticleController.java:76-77 | "field,dir" splits into field and dir |
| PublicArticleController.DefaultSortParts | backend/src/main/java/de/tzr/controller/PublicArticleController.java:33 | the default sort splits into "publishedDate" and "desc" |
| PublicArticleController.DefaultSortIsNewestFirst | backend/src/main/java/de/tzr/controller/PublicArticleController.java:33-35 | the default sort gives descending by publishedDate |
| PublicArticleController.Dispatch | backend/src/main/java/de/tzr/controller/PublicArticleController.java:38-43 | the query follows the precedence: category, author, tag, academic only when true, type, else all published |
| PublicArticleController.CategoryWins | backend/src/main/java/de/tzr/controller/PublicArticleController.java:38 | a category makes every other filter irrelevant |
| PublicArticleController.AcademicFalseIsAbsent | backend/src/main/java/de/tzr/controller/PublicArticleController.java:41 | academic=false acts as no academic filter |
| PublicArticleController.GetAll | backend/src/main/java/de/tzr/controller/PublicArticleController.java:23-44 | page size is min(size, 50) and a success has a size from 1 to 50; the language from the parameter; the dispatched query; the pageable errors surface |
| PublicArticleController.DefaultListRequest | backend/src/main/java/de/tzr/controller/PublicArticleController.java:24-43 | with no parameters: all published, page 0 of 12, newest first |
| PublicArticleController.Search | backend/src/main/java/de/tzr/controller/PublicArticleController.java:57-64 | size capped at 50, no sort |
| PublicArticleController.Related | backend/src/main/java/de/tzr/controller/PublicArticleController.java:66-73 | size not capped, no sort |
| PublicArticleController.OnlySearchIsCapped | backend/src/main/java/de/tzr/controller/PublicArticleController.java:63-72 | an oversized request is capped by search but not by related |
| ReadingTime.ShownMinutes | frontend/src/app/shared/pipes/reading-time.pipe.ts:10 | at least one minute is shown |
| ReadingTime.Suffix | frontend/src/app/shared/pipes/reading-time.pipe.ts:11-15 | every wording starts with a space |
| ReadingTime.Transform | frontend/src/app/shared/pipes/reading-time.pipe.ts:8-16 | the label is longer than its number |
| ReadingTime.ClampSpec | frontend/src/app/shared/pipes/reading-time.pipe.ts:10 | missing, zero, negative or one minute shows 1; more shows unchanged; clamping is idempotent |
| ReadingTime.Wording | frontend/src/app/shared/pipes/reading-time.pipe.ts:11-15 | "pt" and only "pt" gives "min. de leitura", "en" and only "en" gives "min read", every other language "Min. Lesezeit" |
| ReadingTime.ReadBack | frontend/src/app/shared/pipes/reading-time.pipe.ts:12-14 | the label starts with the minutes in decimal followed by a space, so they can be read back |
| ReadingTime.SameTextSameMinutes | frontend/src/app/shared/pipes/reading-time.pipe.ts:8-16 | two equal labels show the same minutes, whatever their languages |

## Left out

- HTTP binding, JSON (de)serialisation, logging and page responses are not modelled. The provider exchange is a function from the request fields to a reply outcome.
- `@Async` and `@Transactional` are not modelled as such. A dispatch is an appended job, run later by the `Translate*` methods; concurrency between runs and the executor are not modelled. Rollback is modelled as "nothing changes on error", except for the run a category create or update dispatched before its commit failed. Identity values consumed by a rolled-back insert are not modelled, except the category id such a create dispatched its run for, which is not handed out again.
- One identity counter serves all tables, where the database keeps one sequence per table.
- `Language.DEFAULT` is modelled as DE. `Language.java` is not part of this model; the exhaustive switches of the clients fix the three constants.
- The `ArticleStatus`, `CategoryType` and `NewsletterSubscriber` classes are not part of this model. The status constants are those the service code names. The category types are a parameter set of names. A subscriber whose confirmed flag was never set is treated as unconfirmed.
- `SlugUtil.slugify`, the clock (`LocalDate.now`, `LocalDateTime.now`) and `UUID.randomUUID` are parameters. Dates are day numbers and times are seconds.
- Mail sending (`EmailService`) is an appended outbox entry. Whether the mail server accepts a mail is an input.
- AuthorMapper's author view is left out, because the code does not define the author view the article mappers and `AuthorService.getBySlug` call. The views therefore have no author part, and the services return ids instead of view objects.
- The read-only queries the core does not name are left out: `getBySlug`, `getById`, the paged list queries and the single featured article. The controller is modelled up to the query it dispatches.
- Tag and tag-overlay NOT NULL and unique-name constraints are not modelled. Only the category overlay's NOT NULL name is.
- Case mapping handles ASCII letters only. This affects `equalsIgnoreCase` too, so Unicode letters with case are not covered; the Java behaviour differs only for those.
- Fractional and NaN reading times are left out, as are a `lang` signal that is not a string and null values for non-nullable request parameters (email, token, tag name).
- ArticleMapper.TagDTOs: the tags are a set, not the Java list in the iteration order of a `HashSet`.
- TranslationResolver.Dump: the raw overlay lists are in declaration order of the languages. The source uses the order of its overlay map, which is not fixed.
- TagService.Listing: the listing is a map keyed by tag id, not a list in repository order.
- CategoryService.SavedOverlays: the check at commit covers every overlay of the final map, where the flush writes only the overlays the loop changed. The two agree because stored overlays are always named (`Model.DbValid`). The database's own constraint machinery is not modelled.
- AutoTranslation.StepState: when markTaskDone throws after closing some but not all of several matching tasks, the model closes none of them.
- The `createdAt` and `updatedAt` columns, and the view fields that show them, are left out. No modelled operation reads them.
