# Project management backend: a Dafny model

This project models the request handlers of a small project-management API
(`main.py`) and the payload schemas they validate against (`schemas.py`).
The API keeps three MongoDB collections: `project`, `task` and `note`. Over
them it offers:

- list, get and create endpoints for projects;
- list and create endpoints for tasks and notes;
- a keyword "chat" endpoint that gathers related projects, each with a few
  open tasks and recent notes attached.

The model is organised as follows:

- **Results** — `Option` and `Result`.
- **Text** — the Python string operations the handlers rely on: `strip()`,
  `lower()`, substring search, `", ".join` and decimal rendering.
- **Seqs** — filtering, capping, de-duplication by key and a stable sort, with
  their properties.
- **ObjectIds** — a BSON ObjectId as twelve bytes.
  - The model takes a string to be a valid ObjectId (for `ObjectId.is_valid`
    and `ObjectId(s)`) when it is 24 hexadecimal digits in either case.
  - `str(ObjectId)` is the lower-case hex encoding.
  - Both round trips are proved.
- **Documents** — schemaless documents (`map<string, Value>`), Python
  truthiness and `str()`, `serialize_doc`, and `PyObjectId.validate`.
- **Schemas** — the `Project`, `Task` and `Note` models as validators from a
  JSON body to a record, with their defaults and the `progress` range, plus
  the field dump that `create_document` stores.
- **Store** — the three collections as sequences in natural (insertion)
  order, plus:
  - `find_one` by `_id`;
  - `count_documents`;
  - `cursor.limit`;
  - the `_id` and `created_at` fields that `create_document` adds.
- **Handlers** — `list_projects`, `create_project`, `get_project`,
  `list_tasks`, `create_task`, `list_notes` and `create_note`, with HTTP
  400 / 404 / 422 / 500 outcomes as an `ApiError`.
- **Chat** — `chat_with_projects`: query normalisation, direct and derived
  matches, de-duplication by `str(_id)`, the caps (10 related projects,
  5 open tasks, 3 recent notes, 5 names in the reply) and the reply text.

Things that are not part of this model are passed in as parameters:

- `datetime.isoformat()` and `str()` of dates and lists are the `Formats`
  record of functions.
- Clock and identifier generation are the `now` and `id` arguments of the
  create handlers. The new identifier is required to be unused.
- The order in which Python iterates the set of derived project ids is the
  `order` argument of the chat. It must list that set exactly once.

`database.py` is not part of this model. `get_documents(collection, filter,
limit)` is taken to be `find(filter)` followed by `cursor.limit(limit)`:

- a limit of 0 returns everything;
- a negative limit −n behaves like n.

`create_task` and `create_note` store `project_id` exactly as the client sent
it. They check that it parses and names a project, but do not rewrite it to
the canonical lower-case form. A task created with an upper-case spelling is
therefore not counted by `list_projects`, which counts by `str(_id)`.
`Handlers.CreatedTaskDocument` and `Handlers.CreatedTaskIsCounted` state this
behaviour as written.

## Model

| member | source | states |
|---|---|---|
| ObjectIds.Parse | main.py:114-116 | `ObjectId(s)` succeeds exactly on the strings the model counts as valid (24 hex digits in either case), and the id it yields prints as the lower-cased input |
| ObjectIds.ToString | main.py:94 | `str(ObjectId)` is a valid id string with no upper-case digit |
| ObjectIds.DecodeEncode | main.py:94 | decoding the hex rendering of any byte string gives back the bytes |
| ObjectIds.EncodeDecode | main.py:114-116 | encoding the bytes parsed from a hex string gives the lower-cased string |
| ObjectIds.ParseToString | main.py:212-213 | parsing `str(o)` yields `o` again |
| ObjectIds.ParseSameIffSameLower | main.py:114-116 | two valid spellings name the same ObjectId exactly when they agree after lower-casing |
| Documents.Serialize | main.py:40-50 | an empty document is returned as is; the keys are unchanged; a truthy `_id` becomes its `str()`; a falsy one is kept; every datetime becomes its isoformat and nothing else changes |
| Documents.SerializeIdempotent | main.py:40-50 | serializing an already serialized document changes nothing |
| Documents.SerializedIdParsesBack | main.py:230-232 | the string `_id` of a serialized document parses back to the original ObjectId |
| Documents.ValidateObjectId | main.py:32-37 | accepts an ObjectId, or a string exactly when it is a valid id; otherwise fails with "Invalid ObjectId" |
| Documents.ValidateObjectIdOfString | main.py:32-37 | validating `str(o)` yields `o` |
| Schemas.ValidateProject | schemas.py:18-31 | a body validates exactly when it is well formed; a missing name is reported; progress outside 0..100 is reported; absent fields take the defaults "planned", 0, [] and None; every field the body gives is kept as given in the dumped project |
| Schemas.ProjectRoundTrip | schemas.py:18-31 | a project with progress in range validates back from its own dump |
| Schemas.ProjectProgressOutOfRange | schemas.py:29 | a project dump with progress outside 0..100 is rejected with exactly that one error |
| Schemas.ProjectDefaults | schemas.py:23-31 | a body with only a name gets every default |
| Schemas.ValidateTask | schemas.py:33-44 | a body validates exactly when it is well formed; missing project_id or title is reported; status defaults to "open" and absent optional fields to None; every field the body gives (description, assignee, due_date, priority included) is kept as given in the dumped task |
| Schemas.TaskRoundTrip | schemas.py:33-44 | every task validates back from its own dump |
| Schemas.ValidateNote | schemas.py:46-53 | a body validates exactly when it is well formed; missing project_id or content is reported; author defaults to None; a given author, null or string, is kept as given in the dumped note |
| Schemas.NoteRoundTrip | schemas.py:46-53 | every note validates back from its own dump |
| Store.FindById | main.py:116 | `find_one` finds nothing exactly when no document has the id, and otherwise returns the first document that has it |
| Store.Stored | main.py:107 | the inserted document holds the new `_id` and `created_at` and every other payload field unchanged, with no further keys |
| Store.FindAfterInsert | main.py:107-108 | after inserting a document under an unused id, `find_one` on that id returns the document |
| Store.Limit | main.py:91 | `cursor.limit(n)` returns a prefix: everything for 0, at most n for positive n, at most −n for negative n |
| Store.Count | main.py:97-101 | `count_documents` is the number of positions whose document matches |
| Store.CountAppend | main.py:97-101 | appending a document raises a count by one exactly when the document matches |
| Handlers.CountTasks | main.py:96-100 | each task count is the number of tasks with that project_id and status |
| Handlers.CountNotes | main.py:101 | the note count is the number of notes with that project_id |
| Handlers.CountsBounded | main.py:96-100 | the three task counts together never exceed the number of tasks |
| Handlers.ListedView | main.py:93-101 | a listed project carries `str(_id)` and the counts keyed by that string; every other field is serialized by `serialize_doc`, and for an ObjectId `_id` the whole entry document is `serialize_doc` of the stored project |
| Handlers.ListProjects | main.py:88-102 | a given limit above 500 is a 422; a missing limit means 100; otherwise exactly the first min(abs(limit), n) of the n projects matching the status filter (all of them for 0), in store order, each with `str(_id)` and its counts |
| Handlers.GetProjectAsWritten | main.py:112-127 | 400 exactly for an invalid id, 404 exactly for an unknown one, success exactly for a valid id naming a stored project; the found project serialized; task and note counts keyed by the path string as given |
| Handlers.GetProjectAsWrittenMissesOtherCase | main.py:121-126 | an upper-case spelling of an id finds the project but counts none of its open tasks |
| Handlers.GetProject | main.py:112-127 | as above, with the counts keyed by the canonical id string |
| Handlers.GetAgreesWithList | main.py:93-101 | getting a project by any spelling reports the same counts as its list entry |
| Handlers.InsertAndRead | main.py:107-109 | the collection grows by the stored document, which `find_one` then returns serialized |
| Handlers.CreateProject | main.py:105-109 | a malformed body is a 422 that leaves the store alone; otherwise the stored project is appended and returned serialized |
| Handlers.CreatedProjectDocument | main.py:107 | the stored project holds the validated fields, `_id` and `created_at` |
| Handlers.ListTasks | main.py:131-139 | a given limit above 1000 is a 422; a missing limit means 200; otherwise exactly the first min(abs(limit), n) of the n tasks matching the given project_id and status (all of them for 0), in store order, serialized |
| Handlers.CreateTask | main.py:142-151 | 422 for a malformed body, then 400 for an invalid project id, then 404 for an unknown project; only success changes the store |
| Handlers.CreatedTaskDocument | main.py:149 | the stored task keeps project_id exactly as sent |
| Handlers.CreatedTaskIsCounted | main.py:149 | after a create, the count under the sent project_id and status rises by one |
| Handlers.ListNotes | main.py:155-159 | a given limit above 1000 is a 422; a missing limit means 200; otherwise exactly the first min(abs(limit), n) of the n notes of the given project (all of them for 0), in store order, serialized |
| Handlers.CreateNote | main.py:162-171 | 422, then 400, then 404, in that order; only success changes the store |
| Handlers.CreatedNoteDocument | main.py:169 | the stored note keeps project_id exactly as sent |
| Handlers.CreatedNoteIsCounted | main.py:169 | after a create, the note count under the sent project_id rises by one |
| Chat.Normalize | main.py:186 | the query is no longer than the message, holds no upper-case letter and neither starts nor ends with whitespace |
| Chat.DirectMatches | main.py:191-199 | exactly the first min(10, n) of the n projects matching the query, in store order; a matching project is missing only when ten were found |
| Chat.Candidates | main.py:191-217 | `proj_matches` holds only stored projects |
| Chat.CandidateOrigins | main.py:191-217 | every entry of `proj_matches` is a direct match or the project behind a valid derived id, and every derived id that names a project contributes it |
| Chat.LookupDerived | main.py:209-217 | each found project has the `_id` of a valid derived id; every derived id that names a project finds it; malformed ids are skipped |
| Chat.Selected | main.py:219-229 | at most ten projects from the store, pairwise distinct by `str(_id)` |
| Chat.SelectedAreFirstOccurrences | main.py:219-229 | each selected project is the first candidate with its key, and candidate order is kept |
| Chat.DirectMatchesComeFirst | main.py:209-229 | the de-duplicated direct matches lead the selection whole; later entries have keys no direct match has |
| Chat.OpenTasks | main.py:232 | exactly the first min(5, n) of the n open or in-progress tasks of the project, in store order; one is left out only when five were found |
| Chat.RecentNotes | main.py:234 | min(3, n) notes forming a sub-multiset of the n notes of the project, newest first; a note of the project is left out only when three are shown, all no older than it |
| Chat.Enrich | main.py:230-236 | an entry is the serialized project with its serialized open tasks and recent notes |
| Chat.RelatedOf | main.py:228-236 | one entry per selected project, in the same order, each the enriched project |
| Chat.Summary | main.py:242-243 | fails exactly when one of the first five names is not a string; otherwise "I found N related project(s): …" with those names, "Unnamed" for a missing one |
| Chat.Reply | main.py:238-244 | "couldn't find" with no projects when none is selected; a 500 exactly when one of the first five names is not a string; otherwise the related list with its summary |
| Chat.ChatWithProjects | main.py:184-188 | the fixed prompt comes back exactly for an all-whitespace message; never more than ten related projects |
| Chat.ChatAnswersSelected | main.py:186-244 | a message that is not blank is answered from the projects selected for its stripped, lower-cased text |
| Chat.EmptyQueryIffBlank | main.py:186-187 | the query is empty exactly when the message is all whitespace |
| Chat.IdsOfMembers | main.py:202-207 | a value is collected exactly when some selected document holds it as its `project_id` |
| Chat.DerivedIdsMembers | main.py:202-209 | the derived ids are exactly the `project_id` values of matching tasks and notes |
| Chat.DerivedProjectIsCandidate | main.py:209-215 | a project named by a matching task's or note's `project_id` is among the candidates |
| Chat.CandidateKeptUnlessFull | main.py:219-229 | every candidate's key is in the selection unless the selection already holds ten projects |
| Chat.RelatedIdsDistinct | main.py:219-236 | no two entries of a chat response carry the same `_id` |
| Chat.ChatSucceedsWithTextNames | main.py:210-243 | when every name is a string or absent, the chat answers successfully |
| Text.StripEmptyIffAllSpace | main.py:186 | `strip()` yields the empty string exactly on all-whitespace input |
| Text.NatToStringRoundTrip | main.py:243 | the decimal rendering of a count reads back as the count |
| Seqs.DedupeFrom | main.py:220-226 | the kept elements have distinct keys, cover every unseen key once, keep order, and keep each key's first occurrence |
| Seqs.DedupeAppend | main.py:215-226 | de-duplicating a concatenation handles the first part before the second |
| Seqs.SortBy | main.py:234 | the result is a sorted permutation of the input |
| Seqs.TopOfSorted | main.py:234 | the first k of a sorted permutation are no older than any element left out |

## Left out

- The HTTP layer (FastAPI routing, CORS, status-code plumbing), `read_root`, the `/test` diagnostics endpoint and the `uvicorn` entry point: these are framework and deployment code.
- `database.py` is not part of this model. `get_documents` is modelled as `find` plus `cursor.limit`, and `create_document` as an insert that adds `_id` and `created_at`. Its `updated_at` stamp and any other behaviour are not modelled.
- ObjectIds.IsValid: bson's own rule for a string is foreign code and is not part of this model. It is modelled as exactly 24 hexadecimal digits in either case; any other spelling bson may accept (for instance whitespace that `bytes.fromhex` skips) is not modelled.
- Store errors and connection failures are not modelled. The `try`/`except` around the derived-id lookup can only catch those, so that path is left out.
- Chat.FieldMatches: `$regex` with option `i` is modelled as substring search after ASCII and Latin-1 lower-casing. Regular-expression metacharacters in the query and full Unicode case folding are not modelled.
- Text.Strip: whitespace is the ASCII and Latin-1 set. Other Unicode spaces that Python's `strip()` removes are not modelled.
- Chat.ProjectHit: only `tags` is matched element by element. A list in `name`, `description`, `title` or `content` does not match, which also holds in MongoDB for non-string lists.
- Handlers.ListTasks: a filter value matches only a field that is present with that value. MongoDB's rule that `null` also matches a missing field does not arise, because the filters only use non-empty strings.
- Chat.RecentNotes: the descending sort on `created_at` is modelled for integer instants. Notes without a timestamp come last; the contracts say nothing about the order of notes with equal timestamps. BSON's cross-type ordering and the server's tie order are not modelled.
- The store's natural order is taken to be insertion order. MongoDB does not guarantee this.
- Pydantic coercion (numbers to strings, ISO strings to dates) is not modelled. A field of the wrong type is rejected with `WrongType`.
- `payload.message or ""`: `message` is a required string, so the `or ""` default has no effect and is not modelled.
- Chat.Enrich: the response models `open_tasks` and `recent_notes` as fields of the entry beside the serialized project, not as keys inside the project document.
- Handlers.ListedView: `task_counts` and `notes_count` are fields of the view beside the document. In the source they are keys written into the returned dict, so they overwrite stored keys with those names; the model keeps any such stored key in the document.
- Handlers.GetProject: the counts sit beside the document in the same way, and a stored `task_counts` or `notes_count` key is not overwritten. The same holds for Handlers.GetProjectAsWritten.
- `datetime.isoformat()`, `str()` of dates and lists, and the encoding of `date` values by the database driver are parameters or left abstract: they are foreign code.

## Findings

| source | as written | input that shows it | evidently intended | confidence | as-written member | corrected member |
|---|---|---|---|---|---|---|
| main.py:121-126 | `get_project` counts tasks and notes whose `project_id` equals the path string exactly, but it finds the project through `ObjectId(project_id)`, which ignores letter case | `GET /api/projects/<an existing id written with upper-case hex digits>`, with tasks stored under the lower-case `str(_id)` | counts under `str(ObjectId(project_id))`, the same key `list_projects` uses (line 94), so both endpoints agree | medium, not executed | Handlers.GetProjectAsWrittenMissesOtherCase | Handlers.GetAgreesWithList |
