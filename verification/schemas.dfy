/**
 * The request schemas for projects, tasks and notes, written as validated
 * constructors: each takes the submitted JSON object and either builds the
 * record (filling in defaults) or fails listing every offending field, in
 * field-declaration order.
 */
module Schemas {
  import opened Results
  import opened Documents

  /** Why a field was rejected. */
  datatype FieldError = Missing(field: string) | WrongType(field: string) | OutOfRange(field: string)

  datatype Project = Project(
    name: string,
    description: Option<string>,
    status: string,
    owner: Option<string>,
    startDate: Option<Date>,
    endDate: Option<Date>,
    progress: int,
    priority: Option<string>,
    tags: seq<string>)

  datatype Task = Task(
    projectId: string,
    title: string,
    description: Option<string>,
    status: string,
    assignee: Option<string>,
    dueDate: Option<Date>,
    priority: Option<string>)

  datatype Note = Note(projectId: string, author: Option<string>, content: string)

  // ---------------------------------------------------------------------------
  // Field readers

  /** A required `str` field. */
  function TextField(m: Doc, k: string): (r: Result<string, FieldError>)
    ensures r.Success? <==> k in m && m[k].Str?
    ensures r.Success? ==> r.value == m[k].s
    ensures k !in m ==> r == Failure(Missing(k))
    ensures r.Failure? ==> r.error.field == k
  {
    if k !in m then Failure(Missing(k))
    else if m[k].Str? then Success(m[k].s)
    else Failure(WrongType(k))
  }

  /** A `str` field with a default; an explicit `null` is not a string. */
  function TextOr(m: Doc, k: string, default: string): (r: Result<string, FieldError>)
    ensures r.Success? <==> k !in m || m[k].Str?
    ensures k !in m ==> r == Success(default)
    ensures k in m && m[k].Str? ==> r == Success(m[k].s)
    ensures r.Failure? ==> r.error == WrongType(k)
  {
    if k !in m then Success(default)
    else if m[k].Str? then Success(m[k].s)
    else Failure(WrongType(k))
  }

  /** An `Optional[str]` field defaulting to `None`. */
  function OptionalText(m: Doc, k: string): (r: Result<Option<string>, FieldError>)
    ensures r.Success? <==> k !in m || m[k].Null? || m[k].Str?
    ensures k !in m || (k in m && m[k].Null?) ==> r == Success(None)
    ensures k in m && m[k].Str? ==> r == Success(Some(m[k].s))
    ensures r.Failure? ==> r.error == WrongType(k)
  {
    if k !in m || m[k].Null? then Success(None)
    else if m[k].Str? then Success(Some(m[k].s))
    else Failure(WrongType(k))
  }

  /** An `Optional[date]` field defaulting to `None`. */
  function OptionalDate(m: Doc, k: string): (r: Result<Option<Date>, FieldError>)
    ensures r.Success? <==> k !in m || m[k].Null? || m[k].Day?
    ensures k !in m || (k in m && m[k].Null?) ==> r == Success(None)
    ensures k in m && m[k].Day? ==> r == Success(Some(m[k].d))
    ensures r.Failure? ==> r.error == WrongType(k)
  {
    if k !in m || m[k].Null? then Success(None)
    else if m[k].Day? then Success(Some(m[k].d))
    else Failure(WrongType(k))
  }

  /** An `int` field with a default and the inclusive bounds `ge=lo, le=hi`. */
  function BoundedInt(m: Doc, k: string, default: int, lo: int, hi: int): (r: Result<int, FieldError>)
    requires lo <= default <= hi
    ensures r.Success? <==> k !in m || (m[k].Int? && lo <= m[k].i <= hi)
    ensures r.Success? ==> lo <= r.value <= hi
    ensures k !in m ==> r == Success(default)
    ensures k in m && m[k].Int? && !(lo <= m[k].i <= hi) ==> r == Failure(OutOfRange(k))
    ensures k in m && !m[k].Int? ==> r == Failure(WrongType(k))
  {
    if k !in m then Success(default)
    else if !m[k].Int? then Failure(WrongType(k))
    else if lo <= m[k].i <= hi then Success(m[k].i)
    else Failure(OutOfRange(k))
  }

  predicate AllText(items: seq<Value>) {
    forall i :: 0 <= i < |items| ==> items[i].Str?
  }

  /** A `List[str]` field defaulting to the empty list. */
  function TextList(m: Doc, k: string): (r: Result<seq<string>, FieldError>)
    ensures r.Success? <==> k !in m || (m[k].List? && AllText(m[k].items))
    ensures k !in m ==> r == Success([])
    ensures r.Success? && k in m ==>
      (|r.value| == |m[k].items| && forall i :: 0 <= i < |r.value| ==> m[k].items[i] == Str(r.value[i]))
    ensures r.Failure? ==> r.error == WrongType(k)
  {
    if k !in m then Success([])
    else if m[k].List? && AllText(m[k].items) then
      var items := m[k].items;
      Success(seq(|items|, i requires 0 <= i < |items| => items[i].s))
    else Failure(WrongType(k))
  }

  /** Every field the payload gives appears unchanged in the dumped record. */
  predicate KeepsGiven(m: Doc, dump: Doc) {
    forall k :: k in m && k in dump ==> dump[k] == m[k]
  }

  /** The error a reader reported, if any. */
  function Problem<T>(r: Result<T, FieldError>): seq<FieldError> {
    if r.Failure? then [r.error] else []
  }

  // ---------------------------------------------------------------------------
  // Project

  /** Every field of a project payload is acceptable. */
  predicate ProjectPayloadOk(m: Doc) {
    && "name" in m && m["name"].Str?
    && ("description" !in m || m["description"].Null? || m["description"].Str?)
    && ("status" !in m || m["status"].Str?)
    && ("owner" !in m || m["owner"].Null? || m["owner"].Str?)
    && ("start_date" !in m || m["start_date"].Null? || m["start_date"].Day?)
    && ("end_date" !in m || m["end_date"].Null? || m["end_date"].Day?)
    && ("progress" !in m || (m["progress"].Int? && 0 <= m["progress"].i <= 100))
    && ("priority" !in m || m["priority"].Null? || m["priority"].Str?)
    && ("tags" !in m || (m["tags"].List? && AllText(m["tags"].items)))
  }

  /** `Project(**payload)`. */
  function ValidateProject(m: Doc): (r: Result<Project, seq<FieldError>>)
    ensures r.Success? <==> ProjectPayloadOk(m)
    ensures r.Success? ==> 0 <= r.value.progress <= 100 && r.value.name == m["name"].s
    ensures r.Success? && "status" !in m ==> r.value.status == "planned"
    ensures r.Success? && "progress" !in m ==> r.value.progress == 0
    ensures r.Success? && "tags" !in m ==> r.value.tags == []
    ensures r.Success? && "description" !in m ==> r.value.description == None
    ensures r.Success? && "owner" !in m ==> r.value.owner == None
    ensures r.Success? && "start_date" !in m ==> r.value.startDate == None
    ensures r.Success? && "end_date" !in m ==> r.value.endDate == None
    ensures r.Success? && "priority" !in m ==> r.value.priority == None
    ensures r.Success? ==> KeepsGiven(m, ProjectFields(r.value))
    ensures r.Failure? ==> |r.error| > 0
    ensures "name" !in m ==> r.Failure? && Missing("name") in r.error
    ensures "progress" in m && m["progress"].Int? && !(0 <= m["progress"].i <= 100)
      ==> r.Failure? && OutOfRange("progress") in r.error
  {
    var name := TextField(m, "name");
    var description := OptionalText(m, "description");
    var status := TextOr(m, "status", "planned");
    var owner := OptionalText(m, "owner");
    var startDate := OptionalDate(m, "start_date");
    var endDate := OptionalDate(m, "end_date");
    var progress := BoundedInt(m, "progress", 0, 0, 100);
    var priority := OptionalText(m, "priority");
    var tags := TextList(m, "tags");
    var errors := Problem(name) + Problem(description) + Problem(status) + Problem(owner)
      + Problem(startDate) + Problem(endDate) + Problem(progress) + Problem(priority) + Problem(tags);
    if |errors| == 0 then
      var p := Project(name.value, description.value, status.value, owner.value, startDate.value,
        endDate.value, progress.value, priority.value, tags.value);
      var dump := ProjectFields(p);
      assert KeepsGiven(m, dump) by {
        forall k | k in m && k in dump
          ensures dump[k] == m[k]
        {
          if k == "tags" {
            assert dump[k].items == m[k].items;
          }
        }
      }
      Success(p)
    else Failure(errors)
  }

  function OptText(o: Option<string>): Value {
    if o.Some? then Str(o.value) else Null
  }

  function OptDay(o: Option<Date>): Value {
    if o.Some? then Day(o.value) else Null
  }

  /** `project.model_dump()`: every field, `None` included. */
  function ProjectFields(p: Project): Doc {
    map[
      "name" := Str(p.name),
      "description" := OptText(p.description),
      "status" := Str(p.status),
      "owner" := OptText(p.owner),
      "start_date" := OptDay(p.startDate),
      "end_date" := OptDay(p.endDate),
      "progress" := Int(p.progress),
      "priority" := OptText(p.priority),
      "tags" := List(seq(|p.tags|, i requires 0 <= i < |p.tags| => Str(p.tags[i])))]
  }

  /** Dumping a project with an in-range progress and validating the dump gives the project back. */
  lemma ProjectRoundTrip(p: Project)
    requires 0 <= p.progress <= 100
    ensures ValidateProject(ProjectFields(p)) == Success(p)
  {
    var m := ProjectFields(p);
    var items := m["tags"].items;
    assert seq(|items|, i requires 0 <= i < |items| => items[i].s) == p.tags;
  }

  /** A progress outside [0, 100] is never accepted, whatever the other fields. */
  lemma ProjectProgressOutOfRange(p: Project)
    requires !(0 <= p.progress <= 100)
    ensures ValidateProject(ProjectFields(p)).Failure?
    ensures ValidateProject(ProjectFields(p)).error == [OutOfRange("progress")]
  {
    var m := ProjectFields(p);
    var items := m["tags"].items;
    assert AllText(items);
  }

  /** A payload holding only a name yields the documented defaults. */
  lemma ProjectDefaults(name: string)
    ensures ValidateProject(map["name" := Str(name)])
      == Success(Project(name, None, "planned", None, None, None, 0, None, []))
  {
  }

  // ---------------------------------------------------------------------------
  // Task

  predicate TaskPayloadOk(m: Doc) {
    && "project_id" in m && m["project_id"].Str?
    && "title" in m && m["title"].Str?
    && ("description" !in m || m["description"].Null? || m["description"].Str?)
    && ("status" !in m || m["status"].Str?)
    && ("assignee" !in m || m["assignee"].Null? || m["assignee"].Str?)
    && ("due_date" !in m || m["due_date"].Null? || m["due_date"].Day?)
    && ("priority" !in m || m["priority"].Null? || m["priority"].Str?)
  }

  /** `Task(**payload)`. */
  function ValidateTask(m: Doc): (r: Result<Task, seq<FieldError>>)
    ensures r.Success? <==> TaskPayloadOk(m)
    ensures r.Success? ==> r.value.projectId == m["project_id"].s && r.value.title == m["title"].s
    ensures r.Success? && "status" !in m ==> r.value.status == "open"
    ensures r.Success? && "status" in m ==> r.value.status == m["status"].s
    ensures r.Success? && "description" !in m ==> r.value.description == None
    ensures r.Success? && "assignee" !in m ==> r.value.assignee == None
    ensures r.Success? && "due_date" !in m ==> r.value.dueDate == None
    ensures r.Success? && "priority" !in m ==> r.value.priority == None
    ensures r.Success? ==> KeepsGiven(m, TaskFields(r.value))
    ensures r.Failure? ==> |r.error| > 0
    ensures "project_id" !in m ==> r.Failure? && Missing("project_id") in r.error
    ensures "title" !in m ==> r.Failure? && Missing("title") in r.error
  {
    var projectId := TextField(m, "project_id");
    var title := TextField(m, "title");
    var description := OptionalText(m, "description");
    var status := TextOr(m, "status", "open");
    var assignee := OptionalText(m, "assignee");
    var dueDate := OptionalDate(m, "due_date");
    var priority := OptionalText(m, "priority");
    var errors := Problem(projectId) + Problem(title) + Problem(description) + Problem(status)
      + Problem(assignee) + Problem(dueDate) + Problem(priority);
    if |errors| == 0 then
      Success(Task(projectId.value, title.value, description.value, status.value, assignee.value,
        dueDate.value, priority.value))
    else Failure(errors)
  }

  /** `task.model_dump()`. */
  function TaskFields(t: Task): Doc {
    map[
      "project_id" := Str(t.projectId),
      "title" := Str(t.title),
      "description" := OptText(t.description),
      "status" := Str(t.status),
      "assignee" := OptText(t.assignee),
      "due_date" := OptDay(t.dueDate),
      "priority" := OptText(t.priority)]
  }

  /** Dumping a task and validating the dump gives the task back. */
  lemma TaskRoundTrip(t: Task)
    ensures ValidateTask(TaskFields(t)) == Success(t)
  {
  }

  // ---------------------------------------------------------------------------
  // Note

  predicate NotePayloadOk(m: Doc) {
    && "project_id" in m && m["project_id"].Str?
    && ("author" !in m || m["author"].Null? || m["author"].Str?)
    && "content" in m && m["content"].Str?
  }

  /** `Note(**payload)`. */
  function ValidateNote(m: Doc): (r: Result<Note, seq<FieldError>>)
    ensures r.Success? <==> NotePayloadOk(m)
    ensures r.Success? ==> r.value.projectId == m["project_id"].s && r.value.content == m["content"].s
    ensures r.Success? && "author" !in m ==> r.value.author == None
    ensures r.Success? ==> KeepsGiven(m, NoteFields(r.value))
    ensures r.Failure? ==> |r.error| > 0
    ensures "project_id" !in m ==> r.Failure? && Missing("project_id") in r.error
    ensures "content" !in m ==> r.Failure? && Missing("content") in r.error
  {
    var projectId := TextField(m, "project_id");
    var author := OptionalText(m, "author");
    var content := TextField(m, "content");
    var errors := Problem(projectId) + Problem(author) + Problem(content);
    if |errors| == 0 then Success(Note(projectId.value, author.value, content.value))
    else Failure(errors)
  }

  /** `note.model_dump()`. */
  function NoteFields(n: Note): Doc {
    map["project_id" := Str(n.projectId), "author" := OptText(n.author), "content" := Str(n.content)]
  }

  /** Dumping a note and validating the dump gives the note back. */
  lemma NoteRoundTrip(n: Note)
    ensures ValidateNote(NoteFields(n)) == Success(n)
  {
  }
}
