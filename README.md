# A verified model of the Clinchpad client

The modelled system is a small Python client for the Clinchpad CRM REST API:
one class, `Clinchpad`, in `clinchpad.py`. It resolves pipelines and stages
by name. It lists the leads of a pipeline, optionally filtered by stage name.
It searches a lead's notes with a caller-supplied predicate. In
`keep_only_last` mode that search also deletes duplicate matching notes, so
that only the last match survives. Around these sit one-line pass-throughs
that build a request path.

The model has six modules:

- `Wrappers` (`wrappers.dfy`): `Option` and `Result`.
- `Seqs` (`seqs.dfy`): the list comprehension `[x for x in s if p(x)]` as
  `Filter`, and its head as `First`, with lemmas on which positions they keep.
- `Records` (`records.dfy`): pipelines, stages, leads, notes and fields,
  reduced to the keys the client reads. It also holds the two lookup failures.
- `Queries` (`queries.dfy`): pipeline lookup by name, the stage chosen within
  a stage list, and the lead stage filter, as functions of the fetched lists.
- `NoteSearch` (`notesearch.dfy`): what `find_note_having` returns and which
  notes it deletes, as functions of the fetched note list. Also the lemmas
  for both modes and the deduplication invariant.
- `Clinchpad` (`clinchpad.dfy`): the class with its `_pipelines` field
  (`pipelinesCache`). `Pipeline`, `Leads`, `StageByName`, `MoveLead` and
  `FindNoteHaving` are proved against the functions above. The one-line
  pass-throughs (`Users`, `UpdateLead`, `Fields`, `DeleteField`, `AddNote`,
  `UpdateNote`, `DeleteNote`) each promise the one request they send, built
  from the path functions in the same file.

The transport is abstracted. Every call the client sends is appended to the
field `requests` (GET, POST with a JSON body, PUT with a form body, DELETE,
each with its path relative to the base URL). What the service would answer
to a fetch is a method parameter (`fetched`, `fetchedPipelines`,
`fetchedStages`, `fetchedLeads`). Python truthiness of the note predicate's
result is modelled as `Some(value)` / `None`. Python's `assert` failures in
`pipeline` and `stage_by_name` become `Failure(PipelineNotFound(name))` and
`Failure(StageNotFound(stage, pipeline))`.

The pipeline "cache" is modelled as written. `_pipelines` is set to `None`
in `__init__` and assigned nowhere else. So the check `if self._pipelines:`
never succeeds, and every `pipelines()` call fetches. Every method's frame
is `modifies this`requests`, so Dafny checks that no method writes
`pipelinesCache`. `ConsecutivePipelineReads` shows that two reads through
one client send two GETs and can return different lists. The `# Cache`
comment at clinchpad.py:13 suggests that storing the list was intended, but
nothing ever stores it, so the model has every read fetch.

## Model

| member | source | states |
|---|---|---|
| `Seqs.Filter` | clinchpad.py:45-57 | the comprehensions `[p for p in … if …]` at lines 45 and 57: never longer than the input; its meaning is pinned down by `FilterSelects`, `FilterMembers` and `First` |
| `Seqs.FilterSelects` | clinchpad.py:57 | a comprehension keeps exactly the positions whose element passes the test, in increasing order, so the result is an order-preserving selection of the input |
| `Seqs.FilterMembers` | clinchpad.py:57 | every element of a comprehension's result is in the input and passes the test; every input element that passes is in the result |
| `Seqs.First` | clinchpad.py:45-47 | the head of a comprehension is None exactly when no element passes; otherwise it is the element at the first passing position |
| `Queries.PipelineNamed` | clinchpad.py:44-47 | `pipeline(name)` fails with PipelineNotFound(name) exactly when no fetched pipeline has that name; otherwise it returns the first pipeline, in list order, whose name equals it |
| `Queries.PipelineNamedExample` | clinchpad.py:44-47 | with pipelines Sales and Support, "Sales" gives the Sales record and "Marketing" fails with NotFound |
| `Queries.StageNamed` | clinchpad.py:116-119 | within the fetched stage list: fails with StageNotFound(stage, pipeline) exactly when no stage has the name; otherwise returns the first stage, in list order, with that name |
| `Queries.StageNames` | clinchpad.py:52-53 | a lone stage-name string becomes the one-element list holding it; a list is kept as given (see `OneStageActsAsList`) |
| `Queries.InStages` | clinchpad.py:57 | a lead is kept when it has a stage and that stage's name is one of the given names (see `SelectLeads`, `SelectLeadsIsOrderedSelection`) |
| `Queries.SelectLeads` | clinchpad.py:56-58 | with no stage names the fetched leads come back unchanged; with some, every lead returned is a fetched lead with a stage whose name is listed, every such fetched lead is returned, and no lead without a stage is returned |
| `Queries.SelectLeadsIsOrderedSelection` | clinchpad.py:56-57 | with a non-empty stage list, the leads returned are, in their fetched order, exactly the fetched leads whose stage is named; no position with no stage is selected |
| `Queries.OneStageActsAsList` | clinchpad.py:52-53 | a single stage-name string selects the same leads as the one-element list holding it |
| `NoteSearch.Hits` | clinchpad.py:81-88 | the `all_results` list: one entry per note whose predicate result is truthy, with that result, in scan order; never longer than the notes; pinned down by `HitNotesAreMatches`, `NoHitsIff` and `HitsStep` |
| `NoteSearch.Search` | clinchpad.py:84-97 | what `find_note_having` returns, pinned down by `FirstMatchMode` (first match), `KeepLastMode` (last match), `NoMatchMode` (None) and `FoundIffSomeMatch` |
| `NoteSearch.Doomed` | clinchpad.py:92-95 | the notes `find_note_having` deletes, in order, pinned down by `FirstMatchMode` (none), `KeepLastMode` (every match before the last), `NoMatchMode` (none) and `KeepLastLeavesOneMatch` |
| `NoteSearch.Surviving` | clinchpad.py:92-95 | the notes left once the deleted ones are removed by id, in their original order; `KeepLastLeavesOneMatch` and `KeepLastIdempotent` are stated over it |
| `NoteSearch.HitNotesAreMatches` | clinchpad.py:82-88 | the notes collected by the scan are exactly the notes whose predicate result is truthy, in list order |
| `NoteSearch.HitsDistinct` | clinchpad.py:82-88 | when note ids are unique, the collected matches have unique note ids |
| `NoteSearch.NoHitsIff` | clinchpad.py:85-92 | the scan collects nothing exactly when no note's predicate result is truthy |
| `NoteSearch.FirstMatchMode` | clinchpad.py:84-91 | without keep_only_last the call returns the predicate result of the first matching note in list order and deletes nothing |
| `NoteSearch.KeepLastMode` | clinchpad.py:86-96 | with keep_only_last and the last match at position i: the call returns that note's predicate result; it deletes exactly the matching notes before i, in list order, which is one fewer than the number of matches |
| `NoteSearch.NoMatchMode` | clinchpad.py:92-97 | when no note matches, the call returns None and deletes nothing, in either mode |
| `NoteSearch.FoundIffSomeMatch` | clinchpad.py:85-97 | in either mode a value is returned exactly when some note matches |
| `NoteSearch.KeepLastLeavesOneMatch` | clinchpad.py:92-96 | with unique note ids and at least one match, the notes left after the deletions contain exactly one match, the last one; every non-matching note survives |
| `NoteSearch.KeepLastIdempotent` | clinchpad.py:80-97 | a second keep_only_last call on the surviving notes deletes nothing and returns the same value |
| `NoteSearch.HitsStep` | clinchpad.py:82-88 | one loop step appends the current note's match, if any, to the matches collected so far |
| `NoteSearch.FirstHitAt` | clinchpad.py:85-91 | a truthy note reached with no earlier match gives the first-mode result and no deletions |
| `NoteSearch.DuplicateNoteExample` | clinchpad.py:80-97 | notes A, A, B with a predicate matching A: first mode deletes nothing; keep_only_last deletes only the first A |
| `NoteSearch.DistinctMatchesExample` | clinchpad.py:80-97 | notes A1, B, A3 with a predicate matching a leading 'A': first mode returns "A1" and deletes nothing; keep_only_last returns "A3", the last match's own value, and deletes only the note holding "A1" |
| `Clinchpad.CacheHit` | clinchpad.py:39 | `if self._pipelines:` under Python truthiness: a stored list counts only when it is present and non-empty |
| `Clinchpad.PipelinesSeen` | clinchpad.py:38-42 | the list `pipelines()` hands back: the stored one on a cache hit, otherwise the fetched one (see `Clinchpad.Clinchpad.Pipelines`) |
| `Clinchpad.PipelineFetches` | clinchpad.py:38-42 | the calls `pipelines()` sends: none on a cache hit, otherwise one GET of `pipelines` (see `Clinchpad.Clinchpad.Pipelines`) |
| `Clinchpad.StagesPath` | clinchpad.py:115 | the stages path `/pipelines/<id>/stages`, leading slash included |
| `Clinchpad.LeadsPath` | clinchpad.py:55 | the one-page lead listing `leads?size=999&pipeline_id=<id>` |
| `Clinchpad.LeadPath` | clinchpad.py:61 | the lead path `leads/<id>` |
| `Clinchpad.FieldsPath` | clinchpad.py:70 | the lead's fields path `leads/<id>/fields` |
| `Clinchpad.FieldPath` | clinchpad.py:73 | one field's path `leads/<id>/fields/<field id>` |
| `Clinchpad.NotesPath` | clinchpad.py:78 | the one-page note listing `leads/<id>/notes?size=999` |
| `Clinchpad.NewNotePath` | clinchpad.py:101 | the note-creation path `leads/<id>/notes` |
| `Clinchpad.NotePath` | clinchpad.py:106-109 | one note's path `leads/<id>/notes/<note id>`, used by update and delete |
| `Clinchpad.DeleteRequests` | clinchpad.py:93-95 | the DELETE log of the cleanup loop: one DELETE of each note's path, in the order given; `DeleteRequestsStep` and `FindNoteHaving` tie it to the loop |
| `Clinchpad.DeleteRequestsStep` | clinchpad.py:93-95 | one more deletion in the cleanup loop adds one DELETE for that note's path |
| `Clinchpad.Clinchpad.constructor` | clinchpad.py:6-13 | the base URL is the API root, the key is the configured one, `_pipelines` is None and no call has been sent |
| `Clinchpad.Clinchpad.Users` | clinchpad.py:33-34 | sends one GET of `users` |
| `Clinchpad.Clinchpad.Pipelines` | clinchpad.py:38-42 | a non-empty stored list is returned with no call; otherwise one GET of `pipelines` is sent and its answer returned |
| `Clinchpad.Clinchpad.Pipeline` | clinchpad.py:44-47 | the first pipeline with the name among those `pipelines()` gives, or PipelineNotFound; the calls are those of `pipelines()` |
| `Clinchpad.Clinchpad.Leads` | clinchpad.py:51-58 | an unknown pipeline fails with no lead fetch; otherwise one GET of `leads?size=999&pipeline_id=<id>` and the stage-filtered fetched leads |
| `Clinchpad.Clinchpad.UpdateLead` | clinchpad.py:60-61 | sends one PUT of the data to `leads/<id>` |
| `Clinchpad.Clinchpad.MoveLead` | clinchpad.py:63-65 | resolves the stage as `stage_by_name` does; on success sends exactly one PUT `{stage_id: <resolved id>}` whatever the lead's current stage; on failure sends no update |
| `Clinchpad.Clinchpad.Fields` | clinchpad.py:69-70 | sends one GET of `leads/<id>/fields` |
| `Clinchpad.Clinchpad.DeleteField` | clinchpad.py:72-73 | sends one DELETE of `leads/<id>/fields/<field id>` |
| `Clinchpad.Clinchpad.Notes` | clinchpad.py:77-78 | sends one GET of `leads/<id>/notes?size=999` and returns the fetched notes |
| `Clinchpad.Clinchpad.FindNoteHaving` | clinchpad.py:80-97 | returns the first (or with keep_only_last the last) match's predicate result, None when nothing matches; sends the notes GET, then, only with keep_only_last, one DELETE per matching note except the last, in scan order, and nothing else |
| `Clinchpad.Clinchpad.AddNote` | clinchpad.py:99-103 | sends one POST to `leads/<id>/notes` with the content and the fixed author id |
| `Clinchpad.Clinchpad.UpdateNote` | clinchpad.py:105-106 | sends one PUT of the new content to `leads/<id>/notes/<note id>` |
| `Clinchpad.Clinchpad.DeleteNote` | clinchpad.py:108-109 | sends one DELETE of `leads/<id>/notes/<note id>` |
| `Clinchpad.Clinchpad.StageByName` | clinchpad.py:113-119 | an unknown pipeline fails with no stage fetch; otherwise one GET of `/pipelines/<id>/stages` (the path has a leading slash) and the first stage with the name, or StageNotFound naming stage and pipeline |
| `Clinchpad.ConsecutivePipelineReads` | clinchpad.py:38-42 | on a new client two `pipelines()` reads send two GETs and each returns its own fetch, because `_pipelines` is never filled in |

## Left out

- HTTP, authentication and JSON decoding (clinchpad.py:17-29) are external I/O. Calls are recorded as `Request` values with paths relative to `BASE_URL`, and fetched data are parameters.
- `__init__` reads the API key from `clinchpad.ini` (clinchpad.py:9-11). This is file I/O, so the key is a constructor parameter.
- The `print` before each deletion (clinchpad.py:94) is console output.
- The decoded response bodies returned by `users`, `update_lead`, `move_lead`, `fields`, `delete_field`, `add_note`, `update_note` and `delete_note` are not modelled. These methods record the call they send and return nothing (`MoveLead` returns success or the lookup error). Their bodies are server data the client passes through unchanged.
- Assertions switched off by `python -O` are not modelled. In that case `pipeline` would raise an IndexError and `stage_by_name` would return None; the model always treats a failed assertion as an error result.
- `Queries.SelectLeads`: `stages` is modelled as either one string or a list. Python also accepts other containers (tuple, set), and the model does not.
- `Records.Lead`: a lead's `stage` is either absent or a record with a name. A `stage` that is present but an empty dict is falsy in Python and is not representable here.
- The note predicate is a pure, total function of the note content. Side effects or exceptions raised by the predicate are not modelled.
- Records keep only the keys the client reads (`_id`, `name`, `stage`, `content`). Lookup errors keep the searched names but not the exact assertion message text.
- `NoteSearch.KeepLastLeavesOneMatch` and `NoteSearch.KeepLastIdempotent` assume the note ids in one lead's list are unique. Notes are deleted by id and the service assigns the ids.
- Failure of a deletion partway through the cleanup, and concurrent writers adding notes between the scan and the deletions, are network and concurrency effects. They are left out.
- Pagination: the `size=999` page bound exists only as text in the request paths. The fetched list parameter is whatever that single page held.
- Activity filtering by pipeline, lead, type and date range is not in `clinchpad.py`, so there is no code to model.
