/** TranslationTaskService: the ledger of translation work per entity and
    target language, its reporting queries, and the administrator's
    status override. */
module TranslationTaskService {
  import opened Common
  import opened Model
  import JavaString

  /** The targets tasks are created for, in order. */
  const TaskTargets: seq<Language> := [PT, EN]

  /** A task of the entity for the language that is still open. */
  predicate IsOpen(t: TranslationTask, kind: EntityType, id: int, lang: Language) {
    t.entityType == kind && t.entityId == id && t.targetLang == lang && t.status != DONE
  }

  predicate HasOpenTask(tasks: seq<TranslationTask>, kind: EntityType, id: int, lang: Language) {
    exists i :: 0 <= i < |tasks| && IsOpen(tasks[i], kind, id, lang)
  }

  /** The translation tasks and the IDENTITY counter the inserts draw from. */
  datatype Ledger = Ledger(tasks: seq<TranslationTask>, nextId: int)

  /** The fresh task for `lang`: source DE, status PENDING. */
  function NewTask(taskId: int, kind: EntityType, id: int, lang: Language): (t: TranslationTask)
    ensures t.id == taskId && t.status == PENDING && t.sourceLang == DE
    ensures IsOpen(t, kind, id, lang)
  {
    TranslationTask(taskId, kind, id, DE, lang, PENDING)
  }

  /** One iteration of createTasksForEntity's loop. */
  function AddIfMissing(g: Ledger, kind: EntityType, id: int, lang: Language): (r: Ledger)
    ensures HasOpenTask(g.tasks, kind, id, lang) ==> r == g
    ensures !HasOpenTask(g.tasks, kind, id, lang) ==>
      r == Ledger(g.tasks + [NewTask(g.nextId, kind, id, lang)], g.nextId + 1)
  {
    if HasOpenTask(g.tasks, kind, id, lang) then g
    else Ledger(g.tasks + [NewTask(g.nextId, kind, id, lang)], g.nextId + 1)
  }

  function AddAllMissing(g: Ledger, kind: EntityType, id: int, langs: seq<Language>): Ledger
    decreases |langs|
  {
    if |langs| == 0 then g else AddAllMissing(AddIfMissing(g, kind, id, langs[0]), kind, id, langs[1..])
  }

  /** createTasksForEntity as a function of the ledger. */
  function CreateTasks(g: Ledger, kind: EntityType, id: int): Ledger {
    AddAllMissing(g, kind, id, TaskTargets)
  }

  lemma AddIfMissingKeepsOpen(g: Ledger, kind: EntityType, id: int, lang: Language, other: Language)
    requires HasOpenTask(g.tasks, kind, id, other)
    ensures HasOpenTask(AddIfMissing(g, kind, id, lang).tasks, kind, id, other)
  {
    var i :| 0 <= i < |g.tasks| && IsOpen(g.tasks[i], kind, id, other);
    assert AddIfMissing(g, kind, id, lang).tasks[i] == g.tasks[i];
  }

  /** What a call adds: the existing tasks stay as they are, in front;
      afterwards PT and EN each have an open task; a language gets a new
      PENDING task from DE exactly when it had no open one (a DONE task
      does not count), and each new task takes the next id. */
  lemma {:induction false} CreateTasksSpec(g: Ledger, kind: EntityType, id: int)
    ensures var r := CreateTasks(g, kind, id);
      && |r.tasks| >= |g.tasks| && r.tasks[..|g.tasks|] == g.tasks
      && HasOpenTask(r.tasks, kind, id, PT) && HasOpenTask(r.tasks, kind, id, EN)
      && r.nextId == g.nextId + (|r.tasks| - |g.tasks|)
      && (forall i :: |g.tasks| <= i < |r.tasks| ==>
            r.tasks[i].id == g.nextId + (i - |g.tasks|) && r.tasks[i].status == PENDING && r.tasks[i].sourceLang == DE
            && r.tasks[i].entityType == kind && r.tasks[i].entityId == id && r.tasks[i].targetLang in {PT, EN})
      && |r.tasks| - |g.tasks| ==
           (if HasOpenTask(g.tasks, kind, id, PT) then 0 else 1) + (if HasOpenTask(g.tasks, kind, id, EN) then 0 else 1)
  {
    var g1 := AddIfMissing(g, kind, id, PT);
    var g2 := AddIfMissing(g1, kind, id, EN);
    assert TaskTargets[1..][1..] == [];
    assert CreateTasks(g, kind, id) == g2;
    if HasOpenTask(g.tasks, kind, id, PT) {
      assert g1 == g;
    } else {
      assert IsOpen(g1.tasks[|g.tasks|], kind, id, PT);
    }
    assert HasOpenTask(g1.tasks, kind, id, PT);
    AddIfMissingKeepsOpen(g1, kind, id, EN, PT);
    if !HasOpenTask(g1.tasks, kind, id, EN) {
      assert IsOpen(g2.tasks[|g1.tasks|], kind, id, EN);
    }
    assert HasOpenTask(g1.tasks, kind, id, EN) <==> HasOpenTask(g.tasks, kind, id, EN) by {
      if HasOpenTask(g1.tasks, kind, id, EN) {
        var i :| 0 <= i < |g1.tasks| && IsOpen(g1.tasks[i], kind, id, EN);
        assert i < |g.tasks|;
        assert g.tasks[i] == g1.tasks[i];
      }
      if HasOpenTask(g.tasks, kind, id, EN) {
        AddIfMissingKeepsOpen(g, kind, id, PT, EN);
      }
    }
  }

  /** A second call right after the first adds nothing. */
  lemma CreateTasksIdempotent(g: Ledger, kind: EntityType, id: int)
    ensures CreateTasks(CreateTasks(g, kind, id), kind, id) == CreateTasks(g, kind, id)
  {
    var r := CreateTasks(g, kind, id);
    CreateTasksSpec(g, kind, id);
    assert TaskTargets[1..][1..] == [];
    assert AddIfMissing(r, kind, id, PT) == r;
    assert AddIfMissing(r, kind, id, EN) == r;
  }

  /** createTasksForEntity: for PT and EN in turn, insert a PENDING task
      unless an open one exists. */
  method CreateTasksForEntity(st: Store, kind: EntityType, id: int)
    modifies st`tasks, st`nextId
    ensures Ledger(st.tasks, st.nextId) == CreateTasks(Ledger(old(st.tasks), old(st.nextId)), kind, id)
  {
    var langs := TaskTargets;
    var i := 0;
    while i < |langs|
      invariant 0 <= i <= |langs|
      invariant AddAllMissing(Ledger(st.tasks, st.nextId), kind, id, langs[i..])
        == CreateTasks(Ledger(old(st.tasks), old(st.nextId)), kind, id)
    {
      assert langs[i..][1..] == langs[i + 1..];
      var lang := langs[i];
      var found := false;
      var k := 0;
      while k < |st.tasks|
        invariant 0 <= k <= |st.tasks|
        invariant found <==> exists j :: 0 <= j < k && IsOpen(st.tasks[j], kind, id, lang)
      {
        var t := st.tasks[k];
        if t.entityType == kind && t.entityId == id && t.targetLang == lang && t.status != DONE {
          found := true;
        }
        k := k + 1;
      }
      if !found {
        var taskId := st.FreshId();
        st.tasks := st.tasks + [NewTask(taskId, kind, id, lang)];
      }
      i := i + 1;
    }
  }

  /** Ids stay unique and below the counter. */
  lemma {:induction false} CreateTasksKeepsIds(g: Ledger, kind: EntityType, id: int)
    requires TaskIdsUnique(g.tasks) && forall i :: 0 <= i < |g.tasks| ==> g.tasks[i].id < g.nextId
    ensures var r := CreateTasks(g, kind, id);
      TaskIdsUnique(r.tasks) && forall i :: 0 <= i < |r.tasks| ==> r.tasks[i].id < r.nextId
  {
    CreateTasksSpec(g, kind, id);
    var r := CreateTasks(g, kind, id);
    forall i, j | 0 <= i < j < |r.tasks| ensures r.tasks[i].id != r.tasks[j].id {
      if j < |g.tasks| {
        assert r.tasks[i] == g.tasks[i] && r.tasks[j] == g.tasks[j];
      } else if i < |g.tasks| {
        assert r.tasks[i] == g.tasks[i];
      }
    }
    forall i | 0 <= i < |r.tasks| ensures r.tasks[i].id < r.nextId {
      if i < |g.tasks| {
        assert r.tasks[i] == g.tasks[i];
      }
    }
  }

  /** Opening the tasks of a new row keeps the store's integrity. */
  lemma CreateTasksKeepValid(db: Db, subscribers: map<int, Subscriber>, nextId: int, kind: EntityType, id: int)
    requires DbValid(db) && IdsBelow(db, subscribers, nextId)
    ensures var g := CreateTasks(Ledger(db.tasks, nextId), kind, id);
      DbValid(db.(tasks := g.tasks)) && IdsBelow(db.(tasks := g.tasks), subscribers, g.nextId)
  {
    CreateTasksSpec(Ledger(db.tasks, nextId), kind, id);
    CreateTasksKeepsIds(Ledger(db.tasks, nextId), kind, id);
  }

  // ---------------------------------------------------------------------
  // Queries

  /** A translation task as the admin API shows it (timestamps not modelled). */
  datatype TaskDTO = TaskDTO(
    id: int, entityType: string, entityId: int, entityTitle: string,
    sourceLang: string, targetLang: string, status: string)

  /** resolveEntityTitle: the article's title, the category's display name,
      the author's or tag's name; "Unknown ..." when the row is missing or
      that field is null (Optional.map of a null gives empty). */
  function ResolveEntityTitle(db: Db, kind: EntityType, id: int): (r: string)
    ensures kind == ARTICLE && id in db.articles && db.articles[id].title.Some? ==> r == db.articles[id].title.value
    ensures kind == CATEGORY && id in db.categories && db.categories[id].displayName.Some? ==>
      r == db.categories[id].displayName.value
    ensures kind == AUTHOR && id in db.authors && db.authors[id].name.Some? ==> r == db.authors[id].name.value
    ensures kind == TAG && id in db.tags && db.tags[id].name.Some? ==> r == db.tags[id].name.value
  {
    match kind
    case ARTICLE => if id in db.articles && db.articles[id].title.Some? then db.articles[id].title.value else UnknownLabel(kind)
    case CATEGORY => if id in db.categories && db.categories[id].displayName.Some? then db.categories[id].displayName.value else UnknownLabel(kind)
    case AUTHOR => if id in db.authors && db.authors[id].name.Some? then db.authors[id].name.value else UnknownLabel(kind)
    case TAG => if id in db.tags && db.tags[id].name.Some? then db.tags[id].name.value else UnknownLabel(kind)
  }

  /** The label shown for an entity with nothing to show. */
  function UnknownLabel(kind: EntityType): string {
    "Unknown " + (match kind case ARTICLE => "Article" case CATEGORY => "Category" case AUTHOR => "Author" case TAG => "Tag")
  }

  /** A missing row and a row whose title field is null show the same
      "Unknown <Type>" label. */
  lemma MissingEntityIsUnknown(db: Db, kind: EntityType, id: int)
    requires kind == ARTICLE ==> id !in db.articles || db.articles[id].title.None?
    requires kind == CATEGORY ==> id !in db.categories || db.categories[id].displayName.None?
    requires kind == AUTHOR ==> id !in db.authors || db.authors[id].name.None?
    requires kind == TAG ==> id !in db.tags || db.tags[id].name.None?
    ensures ResolveEntityTitle(db, kind, id) == "Unknown " + (match kind
      case ARTICLE => "Article" case CATEGORY => "Category" case AUTHOR => "Author" case TAG => "Tag")
  {
  }

  function ToDTO(db: Db, t: TranslationTask): (r: TaskDTO)
    ensures r.id == t.id && r.entityId == t.entityId && r.entityTitle == ResolveEntityTitle(db, t.entityType, t.entityId)
    ensures r.entityType == EntityTypeName(t.entityType) && r.status == TaskStatusName(t.status)
    ensures r.sourceLang == LanguageName(t.sourceLang) && r.targetLang == LanguageName(t.targetLang)
  {
    TaskDTO(t.id, EntityTypeName(t.entityType), t.entityId, ResolveEntityTitle(db, t.entityType, t.entityId),
            LanguageName(t.sourceLang), LanguageName(t.targetLang), TaskStatusName(t.status))
  }

  /** findByStatus: the tasks with the status, in list order. */
  function WithStatus(tasks: seq<TranslationTask>, s: TaskStatus): (r: seq<TranslationTask>)
    ensures forall t :: t in r <==> t in tasks && t.status == s
    ensures |r| <= |tasks|
  {
    if |tasks| == 0 then []
    else if tasks[0].status == s then [tasks[0]] + WithStatus(tasks[1..], s)
    else WithStatus(tasks[1..], s)
  }

  /** The admin views of the tasks, one per task and in the same order. */
  function Views(db: Db, tasks: seq<TranslationTask>): (r: seq<TaskDTO>)
    ensures |r| == |tasks| && forall i :: 0 <= i < |r| ==> r[i] == ToDTO(db, tasks[i])
  {
    if |tasks| == 0 then [] else [ToDTO(db, tasks[0])] + Views(db, tasks[1..])
  }

  /** getPendingTasks: exactly the PENDING tasks; IN_PROGRESS ones are not
      pending. */
  function PendingTasks(db: Db): (r: seq<TaskDTO>)
    ensures |r| == |WithStatus(db.tasks, PENDING)|
    ensures forall i :: 0 <= i < |r| ==> r[i].status == "PENDING"
    ensures forall t :: t in db.tasks && t.status == PENDING ==> ToDTO(db, t) in r
  {
    var ps := WithStatus(db.tasks, PENDING);
    var r := Views(db, ps);
    assert forall t :: t in ps ==> ToDTO(db, t) in r by {
      forall t | t in ps ensures ToDTO(db, t) in r {
        var i :| 0 <= i < |ps| && ps[i] == t;
        assert r[i] == ToDTO(db, t);
      }
    }
    r
  }

  /** getAllTasks */
  function AllTasks(db: Db): (r: seq<TaskDTO>)
    ensures |r| == |db.tasks|
    ensures forall i :: 0 <= i < |r| ==> r[i] == ToDTO(db, db.tasks[i])
  {
    Views(db, db.tasks)
  }

  /** The views showing a status name, in order. */
  function ViewsShowing(vs: seq<TaskDTO>, status: string): seq<TaskDTO> {
    if |vs| == 0 then []
    else if vs[0].status == status then [vs[0]] + ViewsShowing(vs[1..], status)
    else ViewsShowing(vs[1..], status)
  }

  /** Filtering the views by a status name is filtering the tasks by that
      status: names and statuses correspond one to one. */
  lemma {:induction false} ViewsShowingStatus(db: Db, tasks: seq<TranslationTask>, s: TaskStatus)
    ensures ViewsShowing(Views(db, tasks), TaskStatusName(s)) == Views(db, WithStatus(tasks, s))
  {
    if |tasks| > 0 {
      ViewsShowingStatus(db, tasks[1..], s);
      assert Views(db, tasks)[1..] == Views(db, tasks[1..]);
    }
  }

  /** The PENDING entries of getAllTasks are exactly getPendingTasks, in
      the same order. */
  lemma AllTasksPendingArePendingTasks(db: Db)
    ensures ViewsShowing(AllTasks(db), "PENDING") == PendingTasks(db)
  {
    ViewsShowingStatus(db, db.tasks, PENDING);
  }

  /** countByStatus */
  function CountStatus(tasks: seq<TranslationTask>, s: TaskStatus): (n: nat)
    ensures n == |WithStatus(tasks, s)|
  {
    if |tasks| == 0 then 0 else (if tasks[0].status == s then 1 else 0) + CountStatus(tasks[1..], s)
  }

  datatype Stats = Stats(pending: nat, inProgress: nat, done: nat)

  /** getStats */
  function GetStats(tasks: seq<TranslationTask>): (r: Stats)
    ensures r.pending == CountStatus(tasks, PENDING) && r.inProgress == CountStatus(tasks, IN_PROGRESS)
    ensures r.done == CountStatus(tasks, DONE)
  {
    Stats(CountStatus(tasks, PENDING), CountStatus(tasks, IN_PROGRESS), CountStatus(tasks, DONE))
  }

  /** Every task is counted under exactly one status. */
  lemma {:induction false} StatsCoverAllTasks(tasks: seq<TranslationTask>)
    ensures GetStats(tasks).pending + GetStats(tasks).inProgress + GetStats(tasks).done == |tasks|
  {
    if |tasks| > 0 {
      StatsCoverAllTasks(tasks[1..]);
    }
  }

  // ---------------------------------------------------------------------
  // Status override

  /** findById: the position of the translation task with that id. */
  function IndexOfId(tasks: seq<TranslationTask>, taskId: int): (r: Option<nat>)
    ensures r.Some? ==> r.value < |tasks| && tasks[r.value].id == taskId
    ensures r.None? ==> forall i :: 0 <= i < |tasks| ==> tasks[i].id != taskId
  {
    if |tasks| == 0 then None
    else if tasks[|tasks| - 1].id == taskId then Some(|tasks| - 1)
    else IndexOfId(tasks[..|tasks| - 1], taskId)
  }

  function TaskNotFound(taskId: int): string {
    "Translation task not found: " + JavaString.IntToString(taskId)
  }

  /** updateStatus: an unknown id is not found, a name that is not a
      status (or null) fails as valueOf does, and either way nothing
      changes; otherwise that one task takes the new status. */
  method UpdateStatus(st: Store, taskId: int, status: Str) returns (r: Result<TaskDTO>)
    requires TaskIdsUnique(st.tasks)
    modifies st`tasks
    ensures (forall i :: 0 <= i < |old(st.tasks)| ==> old(st.tasks)[i].id != taskId) ==>
      r == Err(NotFound(TaskNotFound(taskId))) && st.tasks == old(st.tasks)
    ensures (exists i :: 0 <= i < |old(st.tasks)| && old(st.tasks)[i].id == taskId) && ParseTaskStatus(status).Err? ==>
      r == Err(ParseTaskStatus(status).error) && st.tasks == old(st.tasks)
    ensures r.Ok? ==>
      ParseTaskStatus(status).Ok? && |st.tasks| == |old(st.tasks)|
      && (forall i :: 0 <= i < |st.tasks| ==>
            if old(st.tasks)[i].id == taskId then st.tasks[i] == old(st.tasks)[i].(status := ParseTaskStatus(status).value)
            else st.tasks[i] == old(st.tasks)[i])
      && r.value.id == taskId && r.value.status == TaskStatusName(ParseTaskStatus(status).value)
      && (forall i :: 0 <= i < |st.tasks| && st.tasks[i].id == taskId ==> r.value == ToDTO(st.Snapshot(), st.tasks[i]))
    ensures (exists i :: 0 <= i < |old(st.tasks)| && old(st.tasks)[i].id == taskId) && ParseTaskStatus(status).Ok? ==> r.Ok?
  {
    var k := IndexOfId(st.tasks, taskId);
    if k.None? {
      return Err(NotFound(TaskNotFound(taskId)));
    }
    var parsed := ParseTaskStatus(status);
    if parsed.Err? {
      return Err(parsed.error);
    }
    var t := st.tasks[k.value].(status := parsed.value);
    st.tasks := st.tasks[k.value := t];
    r := Ok(ToDTO(st.Snapshot(), t));
  }
}
