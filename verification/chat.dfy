/**
 * The chat endpoint: a keyword search over projects, tasks and notes that
 * merges the projects it finds, keeps the first occurrence of each, caps the
 * result at ten and attaches a few open tasks and recent notes to each.
 */
module Chat {
  import opened Results
  import opened ObjectIds
  import opened Documents
  import opened Seqs
  import opened Store
  import opened Handlers
  import Text

  const PromptReply := "Ask me anything about your projects, tasks, or notes."
  const NothingFoundReply := "I couldn't find anything related. Try different keywords like a project name, tag, or status."
  const ReplyTail := ". I included a few open tasks and recent notes for context."

  const DirectCap := 10
  const RelatedCap := 10
  const OpenTaskCap := 5
  const RecentNoteCap := 3
  const NamedCap := 5

  /** One entry of `related_projects`. */
  datatype RelatedProject = RelatedProject(project: Doc, openTasks: seq<Doc>, recentNotes: seq<Doc>)

  datatype ChatResponse = ChatResponse(reply: string, relatedProjects: seq<RelatedProject>)

  /** `(message or "").strip().lower()`. */
  function Normalize(message: string): (r: string)
    ensures |r| <= |message|
    ensures forall i :: 0 <= i < |r| ==> !Text.IsUpper(r[i])
    ensures |r| == 0 || (!Text.IsSpace(r[0]) && !Text.IsSpace(r[|r| - 1]))
  {
    Text.Lower(Text.Strip(message))
  }

  // ---------------------------------------------------------------------------
  // Matching

  /** `{k: {"$regex": q, "$options": "i"}}` on a string field. */
  predicate FieldMatches(d: Doc, k: string, q: string) {
    k in d && d[k].Str? && Text.ContainsIgnoringCase(d[k].s, q)
  }

  /** `{k: {"$elemMatch": {"$regex": q, "$options": "i"}}}` on a list field. */
  predicate SomeItemMatches(d: Doc, k: string, q: string) {
    k in d && d[k].List?
    && exists i :: 0 <= i < |d[k].items| && d[k].items[i].Str? && Text.ContainsIgnoringCase(d[k].items[i].s, q)
  }

  /** A project matches on its name, its description or any of its tags. */
  predicate ProjectHit(p: Doc, q: string) {
    FieldMatches(p, "name", q) || FieldMatches(p, "description", q) || SomeItemMatches(p, "tags", q)
  }

  /** A task matches on its title or its description. */
  predicate TaskHit(t: Doc, q: string) {
    FieldMatches(t, "title", q) || FieldMatches(t, "description", q)
  }

  /** A note matches on its content. */
  predicate NoteHit(n: Doc, q: string) {
    FieldMatches(n, "content", q)
  }

  /** The projects matched directly: the first ten in store order. */
  function DirectMatches(store: Store, q: string): (r: seq<Doc>)
    ensures |r| <= DirectCap
    ensures forall p :: p in r ==> p in store.projects && ProjectHit(p, q)
    ensures forall p :: p in store.projects && ProjectHit(p, q) ==> p in r || |r| == DirectCap
    ensures var m := Filter(store.projects, p => ProjectHit(p, q)); |r| == LimitCount(|m|, DirectCap) && r == m[..|r|]
  {
    Take(Filter(store.projects, p => ProjectHit(p, q)), DirectCap)
  }

  /** The `project_id` values of the documents in `docs` that `hit` selects. */
  function IdsOf(docs: seq<Doc>, hit: Doc -> bool): set<Value>
    decreases |docs|
  {
    if |docs| == 0 then {}
    else
      (if hit(docs[0]) && "project_id" in docs[0] then {docs[0]["project_id"]} else {})
      + IdsOf(docs[1..], hit)
  }

  /** A value is collected exactly when some selected document holds it as its `project_id`. */
  lemma {:induction false} IdsOfMembers(docs: seq<Doc>, hit: Doc -> bool, v: Value)
    ensures v in IdsOf(docs, hit) <==> exists i :: 0 <= i < |docs| && hit(docs[i]) && Has(docs[i], "project_id", v)
    decreases |docs|
  {
    if |docs| > 0 {
      IdsOfMembers(docs[1..], hit, v);
      if v in IdsOf(docs[1..], hit) {
        var i :| 0 <= i < |docs[1..]| && hit(docs[1..][i]) && Has(docs[1..][i], "project_id", v);
        assert docs[i + 1] == docs[1..][i];
      }
      if exists i :: 0 <= i < |docs| && hit(docs[i]) && Has(docs[i], "project_id", v) {
        var i :| 0 <= i < |docs| && hit(docs[i]) && Has(docs[i], "project_id", v);
        if i > 0 {
          assert docs[1..][i - 1] == docs[i];
        }
      }
    }
  }

  /** The `project_id` values of matching tasks and notes (`distinct`, then `set(...)`). */
  function DerivedIds(store: Store, q: string): set<Value> {
    IdsOf(store.tasks, t => TaskHit(t, q)) + IdsOf(store.notes, n => NoteHit(n, q))
  }

  /** The derived ids are exactly the `project_id` values of the matching tasks and notes. */
  lemma DerivedIdsMembers(store: Store, q: string, v: Value)
    ensures v in DerivedIds(store, q) <==>
      || (exists i :: 0 <= i < |store.tasks| && TaskHit(store.tasks[i], q) && Has(store.tasks[i], "project_id", v))
      || (exists i :: 0 <= i < |store.notes| && NoteHit(store.notes[i], q) && Has(store.notes[i], "project_id", v))
  {
    IdsOfMembers(store.tasks, t => TaskHit(t, q), v);
    IdsOfMembers(store.notes, n => NoteHit(n, q), v);
  }

  /** `order` lists the members of `ids` once each: one iteration order of the set. */
  predicate ListsExactly(order: seq<Value>, ids: set<Value>) {
    && (forall i, j :: 0 <= i < j < |order| ==> order[i] != order[j])
    && (set v | v in order) == ids
  }

  /** `ObjectId.is_valid(pid)` for a value read from a document. */
  predicate IsIdLike(v: Value) {
    v.Oid? || (v.Str? && IsValid(v.s))
  }

  /** `ObjectId(pid)`. */
  function IdOf(v: Value): ObjectId
    requires IsIdLike(v)
  {
    if v.Oid? then v.id else Parse(v.s).value
  }

  /**
   * The projects behind the derived ids, in the given order; an id that is
   * malformed or names no project contributes nothing.
   */
  function LookupDerived(projects: seq<Doc>, order: seq<Value>): (r: seq<Doc>)
    ensures |r| <= |order|
    ensures forall d :: d in r ==> d in projects
    ensures forall d :: d in r ==> exists v :: v in order && IsIdLike(v) && Has(d, "_id", Oid(IdOf(v)))
    ensures forall v :: v in order && IsIdLike(v) && !IsFresh(projects, IdOf(v)) ==> FindById(projects, IdOf(v)).value in r
  {
    if |order| == 0 then []
    else
      var v := order[0];
      var found := if IsIdLike(v) then FindById(projects, IdOf(v)) else None;
      var rest := LookupDerived(projects, order[1..]);
      assert forall w :: w in order <==> w == v || w in order[1..];
      (if found.Some? then [found.value] else []) + rest
  }

  // ---------------------------------------------------------------------------
  // Merging

  /** `str(p.get("_id"))`: the key duplicates are recognised by. */
  function IdKey(fmt: Formats): Doc -> string {
    p => PyStr(Get(p, "_id"), fmt)
  }

  /** `proj_matches` after the derived projects are appended. */
  function Candidates(store: Store, q: string, order: seq<Value>): (r: seq<Doc>)
    ensures forall p :: p in r ==> p in store.projects
  {
    DirectMatches(store, q) + LookupDerived(store.projects, order)
  }

  /**
   * Each candidate is a direct match or the project behind a valid derived id,
   * and each derived id that names a project contributes that project.
   */
  lemma CandidateOrigins(store: Store, q: string, order: seq<Value>)
    ensures forall p :: p in Candidates(store, q, order) ==>
      ProjectHit(p, q) || exists v :: v in order && IsIdLike(v) && Has(p, "_id", Oid(IdOf(v)))
    ensures forall v :: v in order && IsIdLike(v) && !IsFresh(store.projects, IdOf(v)) ==>
      FindById(store.projects, IdOf(v)).value in Candidates(store, q, order)
  {
  }

  /** `unique[:10]`: the first ten candidates with distinct keys. */
  function Selected(store: Store, q: string, order: seq<Value>, fmt: Formats): (r: seq<Doc>)
    ensures |r| <= RelatedCap
    ensures DistinctKeys(r, IdKey(fmt))
    ensures forall p :: p in r ==> p in store.projects
    ensures HasIds(store.projects) ==> forall i :: 0 <= i < |r| ==> "_id" in r[i]
  {
    var c := Candidates(store, q, order);
    var u := Dedupe(c, IdKey(fmt));
    SubseqMembers(u, c);
    Take(u, RelatedCap)
  }

  // ---------------------------------------------------------------------------
  // Context attached to each project

  /** `{"project_id": pid, "status": {"$in": ["open", "in-progress"]}}`. */
  predicate IsOpenTaskOf(t: Doc, pid: Value) {
    Has(t, "project_id", pid) && (Has(t, "status", Str("open")) || Has(t, "status", Str("in-progress")))
  }

  /** Up to five open or in-progress tasks of the project, in store order. */
  function OpenTasks(tasks: seq<Doc>, pid: Value): (r: seq<Doc>)
    ensures |r| <= OpenTaskCap
    ensures forall t :: t in r ==> t in tasks && IsOpenTaskOf(t, pid)
    ensures forall t :: t in tasks && IsOpenTaskOf(t, pid) ==> t in r || |r| == OpenTaskCap
    ensures var m := Filter(tasks, t => IsOpenTaskOf(t, pid)); |r| == LimitCount(|m|, OpenTaskCap) && r == m[..|r|]
  {
    Take(Filter(tasks, t => IsOpenTaskOf(t, pid)), OpenTaskCap)
  }

  /** A note's `created_at`, when it holds a datetime. */
  function CreatedAt(n: Doc): Option<int> {
    if "created_at" in n && n["created_at"].Stamp? then Some(n["created_at"].t.instant) else None
  }

  /**
   * `a` may come before `b` in `sort("created_at", -1)`: `a` is at least as
   * recent, and notes without a datetime come last.
   */
  predicate NotOlder(a: Doc, b: Doc) {
    CreatedAt(b).None? || (CreatedAt(a).Some? && CreatedAt(a).value >= CreatedAt(b).value)
  }

  lemma NotOlderIsTotalPreorder()
    ensures TotalPreorder(NotOlder)
  {
  }

  /** The three most recent notes of the project, most recent first. */
  function RecentNotes(notes: seq<Doc>, pid: Value): (r: seq<Doc>)
    ensures |r| <= RecentNoteCap
    ensures forall n :: n in r ==> n in notes && IsNoteOf(n, pid)
    ensures SortedBy(r, NotOlder)
    ensures forall n :: n in notes && IsNoteOf(n, pid) ==>
      n in r || (|r| == RecentNoteCap && forall m :: m in r ==> NotOlder(m, n))
    ensures var mine := Filter(notes, n => IsNoteOf(n, pid)); |r| == LimitCount(|mine|, RecentNoteCap) && multiset(r) <= multiset(mine)
  {
    NotOlderIsTotalPreorder();
    var mine := Filter(notes, n => IsNoteOf(n, pid));
    var sorted := SortBy(mine, NotOlder);
    TopOfSorted(mine, sorted, RecentNoteCap, NotOlder);
    TakeOfSorted(sorted, RecentNoteCap, NotOlder);
    SameMembers(mine, sorted);
    var r := Take(sorted, RecentNoteCap);
    assert sorted == r + sorted[|r|..];
    assert multiset(sorted) == multiset(r) + multiset(sorted[|r|..]);
    r
  }

  /** One `related_projects` entry: the serialized project with its open tasks and recent notes. */
  function Enrich(store: Store, p: Doc, fmt: Formats): (r: RelatedProject)
    requires "_id" in p
    ensures r.project == Serialize(p, fmt)
    ensures |r.openTasks| <= OpenTaskCap && |r.recentNotes| <= RecentNoteCap
    ensures r.openTasks == SerializeAll(OpenTasks(store.tasks, r.project["_id"]), fmt)
    ensures r.recentNotes == SerializeAll(RecentNotes(store.notes, r.project["_id"]), fmt)
  {
    var sp := Serialize(p, fmt);
    var pid := sp["_id"];
    RelatedProject(sp, SerializeAll(OpenTasks(store.tasks, pid), fmt), SerializeAll(RecentNotes(store.notes, pid), fmt))
  }

  // ---------------------------------------------------------------------------
  // Reply

  /** `p.get("name", "Unnamed")`, or `None` when the value is not a string and joining it raises. */
  function DisplayName(sp: Doc): Option<string> {
    if "name" !in sp then Some("Unnamed")
    else if sp["name"].Str? then Some(sp["name"].s)
    else None
  }

  predicate NamesJoinable(shown: seq<RelatedProject>) {
    forall i :: 0 <= i < |shown| ==> DisplayName(shown[i].project).Some?
  }

  /** The summary naming the first five related projects and stating how many there are. */
  function Summary(related: seq<RelatedProject>): (r: Result<string, ApiError>)
    ensures r.Failure? <==> !NamesJoinable(Take(related, NamedCap))
    ensures r.Failure? ==> r.error == ServerError
    ensures r.Success? ==> exists names ::
      && |names| == |Take(related, NamedCap)|
      && (forall i :: 0 <= i < |names| ==> Some(names[i]) == DisplayName(related[i].project))
      && r.value == "I found " + Text.NatToString(|related|) + " related project(s): " + Text.Join(", ", names) + ReplyTail
  {
    var shown := Take(related, NamedCap);
    if !NamesJoinable(shown) then Failure(ServerError)
    else
      var names := seq(|shown|, i requires 0 <= i < |shown| => DisplayName(shown[i].project).value);
      Success("I found " + Text.NatToString(|related|) + " related project(s): " + Text.Join(", ", names) + ReplyTail)
  }

  // ---------------------------------------------------------------------------
  // The endpoint

  /** Each selected project, serialized and given its context. */
  function RelatedOf(store: Store, selected: seq<Doc>, fmt: Formats): (r: seq<RelatedProject>)
    requires forall i :: 0 <= i < |selected| ==> "_id" in selected[i]
    ensures |r| == |selected|
    ensures forall i :: 0 <= i < |r| ==> r[i] == Enrich(store, selected[i], fmt)
  {
    seq(|selected|, i requires 0 <= i < |selected| => Enrich(store, selected[i], fmt))
  }

  /**
   * The reply once the projects are selected: "nothing found" for none,
   * otherwise the related list and a summary naming the first five.
   */
  function Reply(store: Store, selected: seq<Doc>, fmt: Formats): (r: Result<ChatResponse, ApiError>)
    requires forall i :: 0 <= i < |selected| ==> "_id" in selected[i]
    ensures |selected| == 0 ==> r == Success(ChatResponse(NothingFoundReply, []))
    ensures r.Failure? <==> |selected| > 0 && !NamesJoinable(Take(RelatedOf(store, selected, fmt), NamedCap))
    ensures r.Failure? ==> r.error == ServerError
    ensures r.Success? && |selected| > 0 ==>
      && r.value.relatedProjects == RelatedOf(store, selected, fmt)
      && Summary(r.value.relatedProjects) == Success(r.value.reply)
    ensures r.Success? ==> |r.value.relatedProjects| == |selected|
  {
    var related := RelatedOf(store, selected, fmt);
    if |related| == 0 then Success(ChatResponse(NothingFoundReply, []))
    else
      match Summary(related)
      case Failure(e) => Failure(e)
      case Success(text) => Success(ChatResponse(text, related))
  }

  /**
   * `POST /api/chat`. `order` is the iteration order of the set of derived
   * project ids, which Python's `set` fixes and the handler does not.
   */
  function ChatWithProjects(store: Store, message: string, order: seq<Value>, fmt: Formats)
    : (r: Result<ChatResponse, ApiError>)
    requires HasIds(store.projects)
    requires ListsExactly(order, DerivedIds(store, Normalize(message)))
    ensures r == Success(ChatResponse(PromptReply, [])) <==> Text.AllSpace(message)
    ensures r.Success? ==> |r.value.relatedProjects| <= RelatedCap
  {
    Text.StripEmptyIffAllSpace(message);
    var q := Normalize(message);
    if q == "" then Success(ChatResponse(PromptReply, []))
    else
      var r := Reply(store, Selected(store, q, order, fmt), fmt);
      assert r.Success? && r.value.relatedProjects != [] ==> r.value.reply[0] == 'I';
      r
  }

  // ---------------------------------------------------------------------------
  // Properties

  /** The normalised query is empty exactly when the message is blank. */
  lemma EmptyQueryIffBlank(message: string)
    ensures Normalize(message) == "" <==> Text.AllSpace(message)
  {
    Text.StripEmptyIffAllSpace(message);
  }

  /** Equal serialized identifiers come from equal de-duplication keys. */
  lemma SerializedIdDeterminesKey(p: Doc, p': Doc, fmt: Formats)
    requires "_id" in p && "_id" in p'
    requires Serialize(p, fmt)["_id"] == Serialize(p', fmt)["_id"]
    ensures IdKey(fmt)(p) == IdKey(fmt)(p')
  {
    var v, v' := p["_id"], p'["_id"];
    if Truthy(v) && !Truthy(v') {
      assert v' == Str(PyStr(v, fmt));
    } else if !Truthy(v) && Truthy(v') {
      assert v == Str(PyStr(v', fmt));
    }
  }

  /**
   * A message that is not blank is answered from the selected projects for
   * its stripped, lower-cased text.
   */
  lemma ChatAnswersSelected(store: Store, message: string, order: seq<Value>, fmt: Formats)
    requires HasIds(store.projects)
    requires ListsExactly(order, DerivedIds(store, Normalize(message)))
    requires !Text.AllSpace(message)
    ensures ChatWithProjects(store, message, order, fmt) == Reply(store, Selected(store, Normalize(message), order, fmt), fmt)
  {
    EmptyQueryIffBlank(message);
  }

  /** No two entries of `related_projects` carry the same `_id`. */
  lemma RelatedIdsDistinct(store: Store, message: string, order: seq<Value>, fmt: Formats)
    requires HasIds(store.projects)
    requires ListsExactly(order, DerivedIds(store, Normalize(message)))
    ensures var r := ChatWithProjects(store, message, order, fmt);
      r.Success? ==> forall i, j :: 0 <= i < j < |r.value.relatedProjects| ==>
        r.value.relatedProjects[i].project["_id"] != r.value.relatedProjects[j].project["_id"]
  {
    var r := ChatWithProjects(store, message, order, fmt);
    if r.Success? && r.value.relatedProjects != [] {
      ChatAnswersSelected(store, message, order, fmt);
      var selected := Selected(store, Normalize(message), order, fmt);
      var related := r.value.relatedProjects;
      assert related == RelatedOf(store, selected, fmt);
      forall i, j | 0 <= i < j < |related|
        ensures related[i].project["_id"] != related[j].project["_id"]
      {
        if related[i].project["_id"] == related[j].project["_id"] {
          SerializedIdDeterminesKey(selected[i], selected[j], fmt);
          assert false;
        }
      }
    }
  }

  /**
   * The direct matches, de-duplicated, lead the selection and none of them is
   * cut by the cap of ten; every later entry is a project found only through
   * a task or a note.
   */
  lemma DirectMatchesComeFirst(store: Store, q: string, order: seq<Value>, fmt: Formats)
    ensures var direct := Dedupe(DirectMatches(store, q), IdKey(fmt));
      var selected := Selected(store, q, order, fmt);
      && |direct| <= |selected|
      && selected[..|direct|] == direct
      && (forall i :: |direct| <= i < |selected| ==> IdKey(fmt)(selected[i]) !in Keys(DirectMatches(store, q), IdKey(fmt)))
      && (forall p :: p in DirectMatches(store, q) ==> exists i :: 0 <= i < |direct| && IdKey(fmt)(selected[i]) == IdKey(fmt)(p))
  {
    TakeDedupeAppend(DirectMatches(store, q), LookupDerived(store.projects, order), IdKey(fmt), RelatedCap);
  }

  /**
   * A project named by the `project_id` of a matching task or note is a
   * candidate, whether the id is stored as a string or as an ObjectId.
   */
  lemma DerivedProjectIsCandidate(store: Store, q: string, order: seq<Value>, i: int, v: Value)
    requires ListsExactly(order, DerivedIds(store, q))
    requires || (0 <= i < |store.tasks| && TaskHit(store.tasks[i], q) && Has(store.tasks[i], "project_id", v))
             || (0 <= i < |store.notes| && NoteHit(store.notes[i], q) && Has(store.notes[i], "project_id", v))
    requires IsIdLike(v) && !IsFresh(store.projects, IdOf(v))
    ensures FindById(store.projects, IdOf(v)).value in Candidates(store, q, order)
  {
    DerivedIdsMembers(store, q, v);
    assert v in (set w | w in order);
    var d := FindById(store.projects, IdOf(v)).value;
    assert d in LookupDerived(store.projects, order);
  }

  /** Every candidate's key is represented in the selection unless the selection is full. */
  lemma CandidateKeptUnlessFull(store: Store, q: string, order: seq<Value>, fmt: Formats, p: Doc)
    requires p in Candidates(store, q, order)
    ensures || IdKey(fmt)(p) in Keys(Selected(store, q, order, fmt), IdKey(fmt))
            || |Selected(store, q, order, fmt)| == RelatedCap
  {
    var c := Candidates(store, q, order);
    var u := Dedupe(c, IdKey(fmt));
    assert IdKey(fmt)(p) in Keys(c, IdKey(fmt));
    assert IdKey(fmt)(p) in Keys(u, IdKey(fmt));
  }

  /**
   * Every selected project is the first candidate with its key, and the
   * selection keeps the candidates' relative order.
   */
  lemma SelectedAreFirstOccurrences(store: Store, q: string, order: seq<Value>, fmt: Formats)
    ensures var c := Candidates(store, q, order);
      var selected := Selected(store, q, order, fmt);
      && IsSubseq(selected, c)
      && forall p :: p in selected ==> exists i :: 0 <= i < |c| && c[i] == p && FirstOfKey(c, IdKey(fmt), i)
  {
    var c := Candidates(store, q, order);
    var u := Dedupe(c, IdKey(fmt));
    var selected := Selected(store, q, order, fmt);
    assert selected == u[..|selected|];
    SubseqPrefix(u, c, |selected|);
    DedupeKeepsFirstOccurrences(c, IdKey(fmt));
  }

  /**
   * When every project's name is a string or absent, the chat never fails:
   * derived ids that are malformed or name no project are skipped silently.
   */
  lemma ChatSucceedsWithTextNames(store: Store, message: string, order: seq<Value>, fmt: Formats)
    requires HasIds(store.projects)
    requires ListsExactly(order, DerivedIds(store, Normalize(message)))
    requires forall p: Doc :: p in store.projects ==> "name" !in p || p["name"].Str?
    ensures ChatWithProjects(store, message, order, fmt).Success?
  {
    var q := Normalize(message);
    if q != "" {
      var related := RelatedOf(store, Selected(store, q, order, fmt), fmt);
      var selected := Selected(store, q, order, fmt);
      var shown := Take(related, NamedCap);
      forall i | 0 <= i < |shown|
        ensures DisplayName(shown[i].project).Some?
      {
        assert shown[i] == related[i];
        assert selected[i] in store.projects;
      }
    }
  }
}
