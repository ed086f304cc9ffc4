/**
 * The list, get and create handlers for projects, tasks and notes, with the
 * derived `task_counts` and `notes_count` of project responses.
 */
module Handlers {
  import opened Results
  import opened ObjectIds
  import opened Documents
  import opened Schemas
  import opened Seqs
  import opened Store
  import Text

  /** The failures the handlers report: HTTP 400, 404, 422 and an unhandled exception (500). */
  datatype ApiError =
    | InvalidId
    | NotFound
    | Unprocessable(errors: seq<FieldError>)
    | ServerError

  function StatusCode(e: ApiError): int {
    match e
    case InvalidId => 400
    case NotFound => 404
    case Unprocessable(_) => 422
    case ServerError => 500
  }

  const ProjectLimitMax := 500
  const TaskLimitMax := 1000
  const NoteLimitMax := 1000

  /** The `limit` a list request gets when its query string has none. */
  const ProjectLimitDefault := 100
  const TaskLimitDefault := 200
  const NoteLimitDefault := 200

  /** `limit: int = Query(default, ...)`: the given limit, or the default when the query omits it. */
  function QueryLimit(limit: Option<int>, default: int): int {
    if limit.Some? then limit.value else default
  }

  // ---------------------------------------------------------------------------
  // Derived counts

  datatype TaskCounts = TaskCounts(open: nat, inProgress: nat, done: nat)

  /** A project document together with the counts attached to it. */
  datatype ProjectView = ProjectView(doc: Doc, taskCounts: TaskCounts, notesCount: nat)

  /** `{"project_id": pid, "status": status}`. */
  predicate TaskIn(t: Doc, pid: string, status: string) {
    Has(t, "project_id", Str(pid)) && Has(t, "status", Str(status))
  }

  /** `{"project_id": pid}`, the filter both `notes_count` and the chat's recent notes use. */
  predicate IsNoteOf(n: Doc, pid: Value) {
    Has(n, "project_id", pid)
  }

  /** The three status buckets counted for project `pid`. */
  function CountTasks(store: Store, pid: string): (c: TaskCounts)
    ensures c.open == |set i | 0 <= i < |store.tasks| && TaskIn(store.tasks[i], pid, "open")|
    ensures c.inProgress == |set i | 0 <= i < |store.tasks| && TaskIn(store.tasks[i], pid, "in-progress")|
    ensures c.done == |set i | 0 <= i < |store.tasks| && TaskIn(store.tasks[i], pid, "done")|
  {
    assert Positions(store.tasks, t => TaskIn(t, pid, "open"))
      == set i | 0 <= i < |store.tasks| && TaskIn(store.tasks[i], pid, "open");
    assert Positions(store.tasks, t => TaskIn(t, pid, "in-progress"))
      == set i | 0 <= i < |store.tasks| && TaskIn(store.tasks[i], pid, "in-progress");
    assert Positions(store.tasks, t => TaskIn(t, pid, "done"))
      == set i | 0 <= i < |store.tasks| && TaskIn(store.tasks[i], pid, "done");
    TaskCounts(
      Count(store.tasks, t => TaskIn(t, pid, "open")),
      Count(store.tasks, t => TaskIn(t, pid, "in-progress")),
      Count(store.tasks, t => TaskIn(t, pid, "done")))
  }

  /** The number of notes of project `pid`. */
  function CountNotes(store: Store, pid: string): (n: nat)
    ensures n == |set i | 0 <= i < |store.notes| && IsNoteOf(store.notes[i], Str(pid))|
  {
    assert Positions(store.notes, x => IsNoteOf(x, Str(pid))) == set i | 0 <= i < |store.notes| && IsNoteOf(store.notes[i], Str(pid));
    Count(store.notes, x => IsNoteOf(x, Str(pid)))
  }

  /** A project never has more open, in-progress and done tasks together than there are tasks. */
  lemma CountsBounded(store: Store, pid: string)
    ensures CountTasks(store, pid).open + CountTasks(store, pid).inProgress + CountTasks(store, pid).done
      <= |store.tasks|
  {
    FilterExclusiveBound(store.tasks, t => TaskIn(t, pid, "open"), t => TaskIn(t, pid, "in-progress"),
      t => TaskIn(t, pid, "done"));
  }

  // ---------------------------------------------------------------------------
  // Projects

  /** `{"status": status} if status else {}`. */
  predicate StatusFilter(p: Doc, status: Option<string>) {
    status.None? || status.value == "" || Has(p, "status", Str(status.value))
  }

  /**
   * Writing `str(_id)` into a document before serializing it changes no field
   * but `_id`, and for an ObjectId `_id` changes nothing at all.
   */
  lemma SerializeWithStringId(d: Doc, fmt: Formats)
    requires "_id" in d
    ensures var e := Serialize(d["_id" := Str(PyStr(d["_id"], fmt))], fmt);
      && (forall k :: k in d && k != "_id" ==> e[k] == Serialize(d, fmt)[k])
      && (d["_id"].Oid? ==> e == Serialize(d, fmt))
  {
    var withId := d["_id" := Str(PyStr(d["_id"], fmt))];
    var e := Serialize(withId, fmt);
    var s := Serialize(d, fmt);
    forall k | k in d && k != "_id"
      ensures e[k] == s[k]
    {
      assert withId[k] == d[k];
    }
    if d["_id"].Oid? {
      assert |PyStr(d["_id"], fmt)| == 24;
      assert e["_id"] == s["_id"];
      assert e.Keys == s.Keys;
    }
  }

  /** One `list_projects` entry: the string `_id` is the key the counts are taken under. */
  function ListedView(store: Store, d: Doc, fmt: Formats): (v: ProjectView)
    requires "_id" in d
    ensures v.doc.Keys == d.Keys
    ensures v.doc["_id"] == Str(PyStr(d["_id"], fmt))
    ensures v.taskCounts == CountTasks(store, PyStr(d["_id"], fmt))
    ensures v.notesCount == CountNotes(store, PyStr(d["_id"], fmt))
    ensures forall k :: k in d && k != "_id" ==> v.doc[k] == Serialize(d, fmt)[k]
    ensures d["_id"].Oid? ==> v.doc == Serialize(d, fmt)
  {
    SerializeWithStringId(d, fmt);
    var pid := PyStr(d["_id"], fmt);
    var withId := d["_id" := Str(pid)];
    ProjectView(Serialize(withId, fmt), CountTasks(store, pid), CountNotes(store, pid))
  }

  /** `GET /api/projects`. */
  function ListProjects(store: Store, status: Option<string>, limit: Option<int>, fmt: Formats)
    : (r: Result<seq<ProjectView>, ApiError>)
    requires HasIds(store.projects)
    ensures r.Failure? <==> limit.Some? && limit.value > ProjectLimitMax
    ensures r.Failure? ==> StatusCode(r.error) == 422
    ensures r.Success? && limit.None? ==> |r.value| <= ProjectLimitDefault
    ensures r.Success? ==> var matching := Filter(store.projects, p => StatusFilter(p, status));
      && |r.value| == LimitCount(|matching|, QueryLimit(limit, ProjectLimitDefault))
      && forall i :: 0 <= i < |r.value| ==> "_id" in matching[i] && r.value[i] == ListedView(store, matching[i], fmt)
  {
    if limit.Some? && limit.value > ProjectLimitMax then Failure(Unprocessable([OutOfRange("limit")]))
    else
      var matching := Filter(store.projects, p => StatusFilter(p, status));
      var docs := Limit(matching, QueryLimit(limit, ProjectLimitDefault));
      assert forall i :: 0 <= i < |docs| ==> docs[i] in store.projects && StatusFilter(docs[i], status) by {
        forall i | 0 <= i < |docs| ensures docs[i] in store.projects && StatusFilter(docs[i], status) {
          assert docs[i] in docs;
        }
      }
      Success(seq(|docs|, i requires 0 <= i < |docs| => ListedView(store, docs[i], fmt)))
  }

  /**
   * `GET /api/projects/{id}` as `get_project` in `main.py` is written: the project is looked up
   * by the identifier the string denotes, but the counts are taken under the
   * string exactly as given.
   */
  function GetProjectAsWritten(store: Store, projectId: string, fmt: Formats): (r: Result<ProjectView, ApiError>)
    ensures r == Failure(InvalidId) <==> !IsValid(projectId)
    ensures r == Failure(NotFound) <==> IsValid(projectId) && IsFresh(store.projects, Parse(projectId).value)
    ensures r.Success? <==> IsValid(projectId) && !IsFresh(store.projects, Parse(projectId).value)
    ensures r.Success? ==>
      (exists p :: p in store.projects && Has(p, "_id", Oid(Parse(projectId).value)) && r.value.doc == Serialize(p, fmt))
    ensures r.Success? ==>
      (r.value.taskCounts == CountTasks(store, projectId) && r.value.notesCount == CountNotes(store, projectId))
  {
    match Parse(projectId)
    case None => Failure(InvalidId)
    case Some(o) =>
      match FindById(store.projects, o)
      case None => Failure(NotFound)
      case Some(doc) => Success(ProjectView(Serialize(doc, fmt), CountTasks(store, projectId), CountNotes(store, projectId)))
  }

  /**
   * `GET /api/projects/{id}` with the counts taken under `str(ObjectId(id))`,
   * the key `list_projects` and the task and note documents use.
   */
  function GetProject(store: Store, projectId: string, fmt: Formats): (r: Result<ProjectView, ApiError>)
    ensures r == Failure(InvalidId) <==> !IsValid(projectId)
    ensures r == Failure(NotFound) <==> IsValid(projectId) && IsFresh(store.projects, Parse(projectId).value)
    ensures r.Success? <==> IsValid(projectId) && !IsFresh(store.projects, Parse(projectId).value)
    ensures r.Success? ==>
      (exists p :: p in store.projects && Has(p, "_id", Oid(Parse(projectId).value)) && r.value.doc == Serialize(p, fmt))
    ensures r.Success? ==>
      (r.value.taskCounts == CountTasks(store, Text.Lower(projectId))
      && r.value.notesCount == CountNotes(store, Text.Lower(projectId)))
  {
    match Parse(projectId)
    case None => Failure(InvalidId)
    case Some(o) =>
      match FindById(store.projects, o)
      case None => Failure(NotFound)
      case Some(doc) =>
        var pid := ToString(o);
        Success(ProjectView(Serialize(doc, fmt), CountTasks(store, pid), CountNotes(store, pid)))
  }

  /**
   * Getting a project by any spelling of its identifier reports the same
   * counts as its `list_projects` entry.
   */
  lemma GetAgreesWithList(store: Store, p: Doc, o: ObjectId, projectId: string, fmt: Formats)
    requires p in store.projects && Has(p, "_id", Oid(o))
    requires Parse(projectId) == Some(o)
    ensures GetProject(store, projectId, fmt).Success?
    ensures GetProject(store, projectId, fmt).value.taskCounts == ListedView(store, p, fmt).taskCounts
    ensures GetProject(store, projectId, fmt).value.notesCount == ListedView(store, p, fmt).notesCount
  {
  }

  /**
   * As written, a spelling of a project's identifier that differs from
   * `str(_id)` only in letter case (upper-case hex digits) finds the project
   * but reports none of its tasks; with the counts keyed by `str(ObjectId(id))`
   * the task is counted.
   */
  lemma GetProjectAsWrittenMissesOtherCase(o: ObjectId, spelling: string, fmt: Formats)
    requires IsValid(spelling) && Text.Lower(spelling) == ToString(o) && spelling != ToString(o)
    ensures var store := Store([map["_id" := Oid(o)]], [map["project_id" := Str(ToString(o)), "status" := Str("open")]], []);
      && GetProjectAsWritten(store, spelling, fmt).Success?
      && GetProjectAsWritten(store, spelling, fmt).value.taskCounts.open == 0
      && GetProject(store, spelling, fmt).value.taskCounts.open == 1
  {
    var task := map["project_id" := Str(ToString(o)), "status" := Str("open")];
    var store := Store([map["_id" := Oid(o)]], [task], []);
    ParseSameIffSameLower(spelling, ToString(o));
    ParseToString(o);
    assert Parse(spelling) == Some(o);
    assert (set i | 0 <= i < |store.tasks| && TaskIn(store.tasks[i], spelling, "open")) == {} by {
      assert !TaskIn(task, spelling, "open");
    }
    assert (set i | 0 <= i < |store.tasks| && TaskIn(store.tasks[i], ToString(o), "open")) == {0} by {
      assert TaskIn(task, ToString(o), "open");
    }
  }

  /** The store after a create, and what the endpoint answered. */
  datatype Outcome = Outcome(store: Store, response: Result<Doc, ApiError>)

  /**
   * `create_document` followed by `find_one` on the new identifier: the
   * collection grows by the stored document, and the lookup returns it.
   */
  function InsertAndRead(docs: seq<Doc>, fields: Doc, id: ObjectId, now: DateTime, fmt: Formats)
    : (r: (seq<Doc>, Doc))
    requires IsFresh(docs, id)
    ensures r.0 == docs + [Stored(fields, id, now)]
    ensures FindById(r.0, id) == Some(Stored(fields, id, now))
    ensures r.1 == Serialize(Stored(fields, id, now), fmt)
  {
    var d := Stored(fields, id, now);
    FindAfterInsert(docs, d, id);
    var after := docs + [d];
    (after, Serialize(FindById(after, id).value, fmt))
  }

  /** `POST /api/projects`. */
  function CreateProject(store: Store, payload: Doc, id: ObjectId, now: DateTime, fmt: Formats): (r: Outcome)
    requires IsFresh(store.projects, id)
    ensures r.response.Failure? <==> !ProjectPayloadOk(payload)
    ensures r.response.Failure? ==> r.store == store && StatusCode(r.response.error) == 422
    ensures r.response.Success? ==>
      var d := Stored(ProjectFields(ValidateProject(payload).value), id, now);
      && r.store == store.(projects := store.projects + [d])
      && FindById(r.store.projects, id) == Some(d)
      && r.response.value == Serialize(d, fmt)
  {
    match ValidateProject(payload)
    case Failure(errors) => Outcome(store, Failure(Unprocessable(errors)))
    case Success(project) =>
      var (docs, response) := InsertAndRead(store.projects, ProjectFields(project), id, now, fmt);
      Outcome(store.(projects := docs), Success(response))
  }

  /**
   * The stored project keeps the submitted name, has a progress within
   * [0, 100] and the status "planned" unless one was given.
   */
  lemma CreatedProjectDocument(payload: Doc, id: ObjectId, now: DateTime)
    requires ProjectPayloadOk(payload)
    ensures var d := Stored(ProjectFields(ValidateProject(payload).value), id, now);
      && Has(d, "_id", Oid(id)) && Has(d, "created_at", Stamp(now))
      && Has(d, "name", payload["name"])
      && "progress" in d && d["progress"].Int? && 0 <= d["progress"].i <= 100
      && ("progress" !in payload ==> Has(d, "progress", Int(0)))
      && ("status" !in payload ==> Has(d, "status", Str("planned")))
      && ("tags" !in payload ==> Has(d, "tags", List([])))
  {
    var r := ValidateProject(payload);
    assert r.Success?;
    var project := r.value;
    assert project.name == payload["name"].s && 0 <= project.progress <= 100;
    assert "progress" !in payload ==> project.progress == 0;
    assert "status" !in payload ==> project.status == "planned";
    assert "tags" !in payload ==> project.tags == [];
    var fields := ProjectFields(project);
    assert fields["name"] == payload["name"];
    assert fields["progress"] == Int(project.progress);
    assert fields["status"] == Str(project.status);
    assert project.tags == [] ==> fields["tags"] == List([]) by {
      if project.tags == [] {
        assert fields["tags"].items == [];
      }
    }
    var d := Stored(fields, id, now);
    assert d["name"] == fields["name"];
    assert d["progress"] == fields["progress"];
    assert d["status"] == fields["status"];
    assert d["tags"] == fields["tags"];
  }

  // ---------------------------------------------------------------------------
  // Tasks

  /** `{"project_id": project_id}` and `{"status": status}` when given and non-empty. */
  predicate TaskFilter(t: Doc, projectId: Option<string>, status: Option<string>) {
    && (projectId.None? || projectId.value == "" || Has(t, "project_id", Str(projectId.value)))
    && (status.None? || status.value == "" || Has(t, "status", Str(status.value)))
  }

  /** `GET /api/tasks`: the first `limit` matching tasks in store order. */
  function ListTasks(store: Store, projectId: Option<string>, status: Option<string>, limit: Option<int>, fmt: Formats)
    : (r: Result<seq<Doc>, ApiError>)
    ensures r.Failure? <==> limit.Some? && limit.value > TaskLimitMax
    ensures r.Failure? ==> StatusCode(r.error) == 422
    ensures r.Success? && limit.None? ==> |r.value| <= TaskLimitDefault
    ensures r.Success? ==> var matching := Filter(store.tasks, t => TaskFilter(t, projectId, status));
      && |r.value| == LimitCount(|matching|, QueryLimit(limit, TaskLimitDefault))
      && forall i :: 0 <= i < |r.value| ==> r.value[i] == Serialize(matching[i], fmt)
  {
    if limit.Some? && limit.value > TaskLimitMax then Failure(Unprocessable([OutOfRange("limit")]))
    else
      var matching := Filter(store.tasks, t => TaskFilter(t, projectId, status));
      Success(SerializeAll(Limit(matching, QueryLimit(limit, TaskLimitDefault)), fmt))
  }

  /** `POST /api/tasks`: validate the payload, then the id's format, then the project's existence, then insert. */
  function CreateTask(store: Store, payload: Doc, id: ObjectId, now: DateTime, fmt: Formats): (r: Outcome)
    requires IsFresh(store.tasks, id)
    ensures !TaskPayloadOk(payload) ==> r.store == store && r.response.Failure? && StatusCode(r.response.error) == 422
    ensures TaskPayloadOk(payload) && !IsValid(payload["project_id"].s)
      ==> r == Outcome(store, Failure(InvalidId))
    ensures TaskPayloadOk(payload) && IsValid(payload["project_id"].s)
      && IsFresh(store.projects, Parse(payload["project_id"].s).value)
      ==> r == Outcome(store, Failure(NotFound))
    ensures r.response.Success? <==>
      && TaskPayloadOk(payload) && IsValid(payload["project_id"].s)
      && !IsFresh(store.projects, Parse(payload["project_id"].s).value)
    ensures r.response.Success? ==>
      var d := Stored(TaskFields(ValidateTask(payload).value), id, now);
      && r.store == store.(tasks := store.tasks + [d])
      && FindById(r.store.tasks, id) == Some(d)
      && r.response.value == Serialize(d, fmt)
  {
    match ValidateTask(payload)
    case Failure(errors) => Outcome(store, Failure(Unprocessable(errors)))
    case Success(task) =>
      match Parse(task.projectId)
      case None => Outcome(store, Failure(InvalidId))
      case Some(o) =>
        if FindById(store.projects, o).None? then Outcome(store, Failure(NotFound))
        else
          var (docs, response) := InsertAndRead(store.tasks, TaskFields(task), id, now, fmt);
          Outcome(store.(tasks := docs), Success(response))
  }

  /**
   * The stored task keeps the submitted `project_id` string as given, and its
   * status is the submitted one or "open".
   */
  lemma CreatedTaskDocument(payload: Doc, id: ObjectId, now: DateTime)
    requires TaskPayloadOk(payload)
    ensures var d := Stored(TaskFields(ValidateTask(payload).value), id, now);
      && Has(d, "_id", Oid(id)) && Has(d, "created_at", Stamp(now))
      && Has(d, "project_id", payload["project_id"])
      && Has(d, "title", payload["title"])
      && Has(d, "status", if "status" in payload then payload["status"] else Str("open"))
  {
    var fields := TaskFields(ValidateTask(payload).value);
    var d := Stored(fields, id, now);
    assert d["project_id"] == fields["project_id"];
    assert d["title"] == fields["title"];
    assert d["status"] == fields["status"];
  }

  /**
   * A task created under the string form of its project's identifier is
   * counted in exactly one status bucket of that project, the one its status
   * names, when that status is counted at all.
   */
  lemma CreatedTaskIsCounted(store: Store, payload: Doc, id: ObjectId, now: DateTime, fmt: Formats)
    requires IsFresh(store.tasks, id)
    requires TaskPayloadOk(payload) && IsValid(payload["project_id"].s)
    requires !IsFresh(store.projects, Parse(payload["project_id"].s).value)
    ensures var pid := payload["project_id"].s;
      var before := CountTasks(store, pid);
      var after := CountTasks(CreateTask(store, payload, id, now, fmt).store, pid);
      var status := if "status" in payload then payload["status"] else Str("open");
      && after.open == before.open + (if status == Str("open") then 1 else 0)
      && after.inProgress == before.inProgress + (if status == Str("in-progress") then 1 else 0)
      && after.done == before.done + (if status == Str("done") then 1 else 0)
  {
    var r := CreateTask(store, payload, id, now, fmt);
    var pid := payload["project_id"].s;
    var d := Stored(TaskFields(ValidateTask(payload).value), id, now);
    CreatedTaskDocument(payload, id, now);
    CountAppend(store.tasks, d, t => TaskIn(t, pid, "open"));
    CountAppend(store.tasks, d, t => TaskIn(t, pid, "in-progress"));
    CountAppend(store.tasks, d, t => TaskIn(t, pid, "done"));
  }

  // ---------------------------------------------------------------------------
  // Notes

  /** `{"project_id": project_id} if project_id else {}`. */
  predicate NoteFilter(n: Doc, projectId: Option<string>) {
    projectId.None? || projectId.value == "" || Has(n, "project_id", Str(projectId.value))
  }

  /** `GET /api/notes`: the first `limit` matching notes in store order. */
  function ListNotes(store: Store, projectId: Option<string>, limit: Option<int>, fmt: Formats)
    : (r: Result<seq<Doc>, ApiError>)
    ensures r.Failure? <==> limit.Some? && limit.value > NoteLimitMax
    ensures r.Failure? ==> StatusCode(r.error) == 422
    ensures r.Success? && limit.None? ==> |r.value| <= NoteLimitDefault
    ensures r.Success? ==> var matching := Filter(store.notes, n => NoteFilter(n, projectId));
      && |r.value| == LimitCount(|matching|, QueryLimit(limit, NoteLimitDefault))
      && forall i :: 0 <= i < |r.value| ==> r.value[i] == Serialize(matching[i], fmt)
  {
    if limit.Some? && limit.value > NoteLimitMax then Failure(Unprocessable([OutOfRange("limit")]))
    else
      var matching := Filter(store.notes, n => NoteFilter(n, projectId));
      Success(SerializeAll(Limit(matching, QueryLimit(limit, NoteLimitDefault)), fmt))
  }

  /** `POST /api/notes`: validate the payload, then the id's format, then the project's existence, then insert. */
  function CreateNote(store: Store, payload: Doc, id: ObjectId, now: DateTime, fmt: Formats): (r: Outcome)
    requires IsFresh(store.notes, id)
    ensures !NotePayloadOk(payload) ==> r.store == store && r.response.Failure? && StatusCode(r.response.error) == 422
    ensures NotePayloadOk(payload) && !IsValid(payload["project_id"].s)
      ==> r == Outcome(store, Failure(InvalidId))
    ensures NotePayloadOk(payload) && IsValid(payload["project_id"].s)
      && IsFresh(store.projects, Parse(payload["project_id"].s).value)
      ==> r == Outcome(store, Failure(NotFound))
    ensures r.response.Success? <==>
      && NotePayloadOk(payload) && IsValid(payload["project_id"].s)
      && !IsFresh(store.projects, Parse(payload["project_id"].s).value)
    ensures r.response.Success? ==>
      var d := Stored(NoteFields(ValidateNote(payload).value), id, now);
      && r.store == store.(notes := store.notes + [d])
      && FindById(r.store.notes, id) == Some(d)
      && r.response.value == Serialize(d, fmt)
  {
    match ValidateNote(payload)
    case Failure(errors) => Outcome(store, Failure(Unprocessable(errors)))
    case Success(note) =>
      match Parse(note.projectId)
      case None => Outcome(store, Failure(InvalidId))
      case Some(o) =>
        if FindById(store.projects, o).None? then Outcome(store, Failure(NotFound))
        else
          var (docs, response) := InsertAndRead(store.notes, NoteFields(note), id, now, fmt);
          Outcome(store.(notes := docs), Success(response))
  }

  /** The stored note keeps the submitted `project_id` and content; a missing author is stored as `None`. */
  lemma CreatedNoteDocument(payload: Doc, id: ObjectId, now: DateTime)
    requires NotePayloadOk(payload)
    ensures var d := Stored(NoteFields(ValidateNote(payload).value), id, now);
      && Has(d, "_id", Oid(id)) && Has(d, "created_at", Stamp(now))
      && Has(d, "project_id", payload["project_id"])
      && Has(d, "content", payload["content"])
      && ("author" !in payload ==> Has(d, "author", Null))
  {
    var fields := NoteFields(ValidateNote(payload).value);
    var d := Stored(fields, id, now);
    assert d["project_id"] == fields["project_id"];
    assert d["content"] == fields["content"];
    assert d["author"] == fields["author"];
  }

  /** A created note adds one to its project's `notes_count`. */
  lemma CreatedNoteIsCounted(store: Store, payload: Doc, id: ObjectId, now: DateTime, fmt: Formats)
    requires IsFresh(store.notes, id)
    requires NotePayloadOk(payload) && IsValid(payload["project_id"].s)
    requires !IsFresh(store.projects, Parse(payload["project_id"].s).value)
    ensures CountNotes(CreateNote(store, payload, id, now, fmt).store, payload["project_id"].s)
      == CountNotes(store, payload["project_id"].s) + 1
  {
    var r := CreateNote(store, payload, id, now, fmt);
    var pid := payload["project_id"].s;
    var d := Stored(NoteFields(ValidateNote(payload).value), id, now);
    CreatedNoteDocument(payload, id, now);
    CountAppend(store.notes, d, x => IsNoteOf(x, Str(pid)));
  }
}
