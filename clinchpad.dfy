/** The client object. The transport (`get`, `post`, `put`, `delete` over
    HTTP with the API key) is abstracted: every call the client would send is
    appended to `requests`, and whatever the service would answer to a fetch
    is passed in as a `fetched...` parameter. */
module Clinchpad {
  import opened Wrappers
  import opened Records
  import opened Queries
  import opened NoteSearch

  const BASE_URL := "https://www.clinchpad.com/api/v1/"

  /** The user id every note added through the client is authored by. */
  const NOTE_AUTHOR := "5c4db105f986030014662372"

  /** One call to the service; paths are relative to BASE_URL. `post` sends
      a JSON body, `put` a form body. */
  datatype Request =
    | Get(path: string)
    | Post(path: string, json: map<string, string>)
    | Put(path: string, form: map<string, string>)
    | Delete(path: string)

  const USERS_PATH := "users"
  const PIPELINES_PATH := "pipelines"

  /** Note the leading slash, which the other paths do not have. */
  function StagesPath(pipelineId: string): string { "/pipelines/" + pipelineId + "/stages" }
  function LeadsPath(pipelineId: string): string { "leads?size=999&pipeline_id=" + pipelineId }
  function LeadPath(leadId: string): string { "leads/" + leadId }
  function FieldsPath(leadId: string): string { "leads/" + leadId + "/fields" }
  function FieldPath(leadId: string, fieldId: string): string { "leads/" + leadId + "/fields/" + fieldId }
  function NotesPath(leadId: string): string { "leads/" + leadId + "/notes?size=999" }
  function NewNotePath(leadId: string): string { "leads/" + leadId + "/notes" }
  function NotePath(leadId: string, noteId: string): string { "leads/" + leadId + "/notes/" + noteId }

  /** `if self._pipelines:` — a stored list counts only when it is non-empty. */
  predicate CacheHit(cache: Option<seq<Pipeline>>)
  {
    cache.Some? && |cache.value| > 0
  }

  /** The pipeline list `pipelines()` hands back. */
  function PipelinesSeen(cache: Option<seq<Pipeline>>, fetched: seq<Pipeline>): seq<Pipeline>
  {
    if CacheHit(cache) then cache.value else fetched
  }

  /** The calls `pipelines()` sends. */
  function PipelineFetches(cache: Option<seq<Pipeline>>): seq<Request>
  {
    if CacheHit(cache) then [] else [Get(PIPELINES_PATH)]
  }

  /** One DELETE per note, in order. */
  function DeleteRequests(leadId: string, notes: seq<Note>): seq<Request>
  {
    seq(|notes|, k requires 0 <= k < |notes| => Delete(NotePath(leadId, notes[k].id)))
  }

  lemma DeleteRequestsStep<R>(leadId: string, hs: seq<Hit<R>>, k: nat)
    requires k < |hs|
    ensures DeleteRequests(leadId, NotesOf(hs[..k + 1])) ==
      DeleteRequests(leadId, NotesOf(hs[..k])) + [Delete(NotePath(leadId, hs[k].note.id))]
  {
    assert NotesOf(hs[..k + 1]) == NotesOf(hs[..k]) + [hs[k].note];
  }

  class Clinchpad {
    const baseUrl: string
    const apiKey: string
    /** `_pipelines`: set to None on construction and assigned nowhere else. */
    var pipelinesCache: Option<seq<Pipeline>>
    /** Every call sent to the service so far, oldest first. */
    var requests: seq<Request>

    /** The API key is what `__init__` reads from the configuration file. */
    constructor (apiKey: string)
      ensures this.baseUrl == BASE_URL && this.apiKey == apiKey
      ensures pipelinesCache == None && requests == []
    {
      this.baseUrl := BASE_URL;
      this.apiKey := apiKey;
      this.pipelinesCache := None;
      this.requests := [];
    }

    method Users()
      modifies this`requests
      ensures requests == old(requests) + [Get(USERS_PATH)]
    {
      requests := requests + [Get(USERS_PATH)];
    }

    /** The stored list when there is a non-empty one; otherwise a fetch. */
    method Pipelines(fetched: seq<Pipeline>) returns (pipelines: seq<Pipeline>)
      modifies this`requests
      ensures CacheHit(pipelinesCache) ==> pipelines == pipelinesCache.value && requests == old(requests)
      ensures !CacheHit(pipelinesCache) ==> pipelines == fetched && requests == old(requests) + [Get(PIPELINES_PATH)]
    {
      if CacheHit(pipelinesCache) {
        pipelines := pipelinesCache.value;
      } else {
        requests := requests + [Get(PIPELINES_PATH)];
        pipelines := fetched;
      }
    }

    method Pipeline(name: string, fetched: seq<Pipeline>) returns (r: Result<Records.Pipeline, Error>)
      modifies this`requests
      ensures r == PipelineNamed(PipelinesSeen(pipelinesCache, fetched), name)
      ensures requests == old(requests) + PipelineFetches(pipelinesCache)
    {
      var pipelines := Pipelines(fetched);
      r := PipelineNamed(pipelines, name);
    }

    /** Resolves the pipeline, fetches its leads in one page and keeps those
        on the named stages (all of them when no stage is named). */
    method Leads(pipelineName: string, stages: StagesArg, fetchedPipelines: seq<Records.Pipeline>, fetchedLeads: seq<Lead>)
      returns (r: Result<seq<Lead>, Error>)
      modifies this`requests
      ensures var found := PipelineNamed(PipelinesSeen(pipelinesCache, fetchedPipelines), pipelineName);
        if found.Failure? then
          r == Failure(found.error) && requests == old(requests) + PipelineFetches(pipelinesCache)
        else
          r == Success(SelectLeads(fetchedLeads, stages)) &&
          requests == old(requests) + PipelineFetches(pipelinesCache) + [Get(LeadsPath(found.value.id))]
    {
      var found := Pipeline(pipelineName, fetchedPipelines);
      if found.Failure? {
        return Failure(found.error);
      }
      requests := requests + [Get(LeadsPath(found.value.id))];
      r := Success(SelectLeads(fetchedLeads, stages));
    }

    method UpdateLead(leadId: string, data: map<string, string>)
      modifies this`requests
      ensures requests == old(requests) + [Put(LeadPath(leadId), data)]
    {
      requests := requests + [Put(LeadPath(leadId), data)];
    }

    /** Resolves the target stage, then sends one update carrying its id;
        the lead's current stage plays no part. */
    method MoveLead(lead: Lead, pipelineName: string, newStage: string,
                    fetchedPipelines: seq<Records.Pipeline>, fetchedStages: seq<Stage>)
      returns (r: Result<(), Error>)
      modifies this`requests
      ensures var found := PipelineNamed(PipelinesSeen(pipelinesCache, fetchedPipelines), pipelineName);
        var before := old(requests) + PipelineFetches(pipelinesCache);
        if found.Failure? then
          r == Failure(found.error) && requests == before
        else
          var stage := StageNamed(fetchedStages, pipelineName, newStage);
          if stage.Failure? then
            r == Failure(stage.error) && requests == before + [Get(StagesPath(found.value.id))]
          else
            r == Success(()) &&
            requests == before + [Get(StagesPath(found.value.id)), Put(LeadPath(lead.id), map["stage_id" := stage.value.id])]
    {
      var stage := StageByName(pipelineName, newStage, fetchedPipelines, fetchedStages);
      if stage.Failure? {
        return Failure(stage.error);
      }
      UpdateLead(lead.id, map["stage_id" := stage.value.id]);
      r := Success(());
    }

    method Fields(lead: Lead)
      modifies this`requests
      ensures requests == old(requests) + [Get(FieldsPath(lead.id))]
    {
      requests := requests + [Get(FieldsPath(lead.id))];
    }

    method DeleteField(lead: Lead, field: Field)
      modifies this`requests
      ensures requests == old(requests) + [Delete(FieldPath(lead.id, field.id))]
    {
      requests := requests + [Delete(FieldPath(lead.id, field.id))];
    }

    method Notes(lead: Lead, fetched: seq<Note>) returns (notes: seq<Note>)
      modifies this`requests
      ensures notes == fetched
      ensures requests == old(requests) + [Get(NotesPath(lead.id))]
    {
      requests := requests + [Get(NotesPath(lead.id))];
      notes := fetched;
    }

    /** Scans the lead's notes in order. Without `keepOnlyLast` it returns the
        first match's value; with it, it deletes every match but the last and
        returns the last match's value. None when no note matches. */
    method FindNoteHaving<R>(lead: Lead, pred: string -> Option<R>, keepOnlyLast: bool, fetched: seq<Note>)
      returns (r: Option<R>)
      modifies this`requests
      ensures r == Search(fetched, pred, keepOnlyLast)
      ensures requests == old(requests) + [Get(NotesPath(lead.id))] +
        DeleteRequests(lead.id, Doomed(fetched, pred, keepOnlyLast))
    {
      var notes := Notes(lead, fetched);
      ghost var listed := requests;
      var allResults: seq<Hit<R>> := [];
      var i := 0;
      while i < |notes|
        invariant 0 <= i <= |notes|
        invariant keepOnlyLast ==> allResults == Hits(notes[..i], pred)
        invariant !keepOnlyLast ==> allResults == [] && Hits(notes[..i], pred) == []
        invariant requests == listed
      {
        var result := pred(notes[i].content);
        HitsStep(notes, i, pred);
        if result.Some? {
          if keepOnlyLast {
            allResults := allResults + [Hit(notes[i], result.value)];
          } else {
            FirstHitAt(notes, i, pred);
            return result;
          }
        }
        i := i + 1;
      }
      assert notes[..i] == notes;
      if allResults != [] {
        var doomed := allResults[..|allResults| - 1];
        var k := 0;
        while k < |doomed|
          invariant 0 <= k <= |doomed|
          invariant requests == listed + DeleteRequests(lead.id, NotesOf(doomed[..k]))
        {
          DeleteRequestsStep(lead.id, doomed, k);
          DeleteNote(lead, doomed[k].note);
          k := k + 1;
        }
        assert doomed[..k] == doomed;
        return Some(allResults[|allResults| - 1].result);
      }
      return None;
    }

    method AddNote(lead: Lead, newText: string)
      modifies this`requests
      ensures requests == old(requests) + [Post(NewNotePath(lead.id), map["content" := newText, "user_id" := NOTE_AUTHOR])]
    {
      requests := requests + [Post(NewNotePath(lead.id), map["content" := newText, "user_id" := NOTE_AUTHOR])];
    }

    method UpdateNote(lead: Lead, note: Note, newText: string)
      modifies this`requests
      ensures requests == old(requests) + [Put(NotePath(lead.id, note.id), map["content" := newText])]
    {
      requests := requests + [Put(NotePath(lead.id, note.id), map["content" := newText])];
    }

    method DeleteNote(lead: Lead, note: Note)
      modifies this`requests
      ensures requests == old(requests) + [Delete(NotePath(lead.id, note.id))]
    {
      requests := requests + [Delete(NotePath(lead.id, note.id))];
    }

    /** Resolves the pipeline, fetches its stages afresh and returns the first
        stage with the given name. */
    method StageByName(pipelineName: string, stageName: string,
                       fetchedPipelines: seq<Records.Pipeline>, fetchedStages: seq<Stage>)
      returns (r: Result<Stage, Error>)
      modifies this`requests
      ensures var found := PipelineNamed(PipelinesSeen(pipelinesCache, fetchedPipelines), pipelineName);
        if found.Failure? then
          r == Failure(found.error) && requests == old(requests) + PipelineFetches(pipelinesCache)
        else
          r == StageNamed(fetchedStages, pipelineName, stageName) &&
          requests == old(requests) + PipelineFetches(pipelinesCache) + [Get(StagesPath(found.value.id))]
    {
      var found := Pipeline(pipelineName, fetchedPipelines);
      if found.Failure? {
        return Failure(found.error);
      }
      requests := requests + [Get(StagesPath(found.value.id))];
      var stages := fetchedStages;
      var i := 0;
      while i < |stages|
        invariant 0 <= i <= |stages|
        invariant forall j :: 0 <= j < i ==> stages[j].name != stageName
      {
        if stages[i].name == stageName {
          return Success(stages[i]);
        }
        i := i + 1;
      }
      return Failure(StageNotFound(stageName, pipelineName));
    }
  }

  /** `_pipelines` is never filled in, so two reads through one client both
      go to the service and each returns what that fetch answered. */
  method ConsecutivePipelineReads(apiKey: string, first: seq<Pipeline>, second: seq<Pipeline>)
    returns (a: seq<Pipeline>, b: seq<Pipeline>, log: seq<Request>)
    ensures a == first && b == second
    ensures log == [Get(PIPELINES_PATH), Get(PIPELINES_PATH)]
  {
    var client := new Clinchpad(apiKey);
    a := client.Pipelines(first);
    b := client.Pipelines(second);
    log := client.requests;
  }
}
