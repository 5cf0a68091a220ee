/** The name lookups and the lead stage filter, as functions of the lists
    the service returned. */
module Queries {
  import opened Wrappers
  import opened Seqs
  import opened Records

  function PipelineCalled(name: string): Pipeline -> bool
  {
    (p: Pipeline) => p.name == name
  }

  function StageCalled(name: string): Stage -> bool
  {
    (s: Stage) => s.name == name
  }

  /** `pipeline(name)`: the first pipeline whose name is exactly `name`;
      fails when there is none. */
  function PipelineNamed(pipelines: seq<Pipeline>, name: string): (r: Result<Pipeline, Error>)
    ensures r.Failure? <==> forall i :: 0 <= i < |pipelines| ==> pipelines[i].name != name
    ensures r.Failure? ==> r.error == PipelineNotFound(name)
    ensures r.Success? ==>
      exists i :: 0 <= i < |pipelines| && pipelines[i] == r.value && r.value.name == name &&
        forall j :: 0 <= j < i ==> pipelines[j].name != name
  {
    match First(pipelines, PipelineCalled(name))
    case None => Failure(PipelineNotFound(name))
    case Some(p) => Success(p)
  }

  /** The stage `stage_by_name` settles on within one pipeline's stage list:
      the first whose name is exactly `stageName`; fails naming both the stage
      and the pipeline when there is none. */
  function StageNamed(stages: seq<Stage>, pipelineName: string, stageName: string): (r: Result<Stage, Error>)
    ensures r.Failure? <==> forall i :: 0 <= i < |stages| ==> stages[i].name != stageName
    ensures r.Failure? ==> r.error == StageNotFound(stageName, pipelineName)
    ensures r.Success? ==>
      exists i :: 0 <= i < |stages| && stages[i] == r.value && r.value.name == stageName &&
        forall j :: 0 <= j < i ==> stages[j].name != stageName
  {
    match First(stages, StageCalled(stageName))
    case None => Failure(StageNotFound(stageName, pipelineName))
    case Some(s) => Success(s)
  }

  /** The `stages` argument of `leads`: one stage name, or a list of them. */
  datatype StagesArg = OneStage(name: string) | StageList(names: seq<string>)

  /** A lone string stands for the one-element list holding it. */
  function StageNames(stages: StagesArg): (names: seq<string>)
  {
    match stages
    case OneStage(name) => [name]
    case StageList(names) => names
  }

  /** `r.get('stage') and r['stage']['name'] in stages` */
  predicate InStages(lead: Lead, names: seq<string>)
  {
    lead.stage.Some? && lead.stage.value.name in names
  }

  function InStagesOf(names: seq<string>): Lead -> bool
  {
    (lead: Lead) => InStages(lead, names)
  }

  /** What `leads` returns for the fetched leads: all of them when no stage
      name is given, otherwise those on one of the named stages. */
  function SelectLeads(fetched: seq<Lead>, stages: StagesArg): (r: seq<Lead>)
    ensures StageNames(stages) == [] ==> r == fetched
    ensures StageNames(stages) != [] ==>
      (forall k :: 0 <= k < |r| ==> r[k] in fetched && InStages(r[k], StageNames(stages))) &&
      (forall i :: 0 <= i < |fetched| && InStages(fetched[i], StageNames(stages)) ==> fetched[i] in r)
    ensures StageNames(stages) != [] ==> forall k :: 0 <= k < |r| ==> r[k].stage.Some?
  {
    var names := StageNames(stages);
    FilterMembers(fetched, InStagesOf(names));
    if names == [] then fetched else Filter(fetched, InStagesOf(names))
  }

  /** With a non-empty stage list, `leads` selects, in their fetched order,
      exactly the positions holding a lead on a named stage; a lead with no
      stage is never selected. */
  lemma SelectLeadsIsOrderedSelection(fetched: seq<Lead>, stages: StagesArg) returns (idx: seq<nat>)
    requires StageNames(stages) != []
    ensures Embeds(SelectLeads(fetched, stages), fetched, idx)
    ensures forall i :: 0 <= i < |fetched| ==> (i in idx <==> InStages(fetched[i], StageNames(stages)))
    ensures forall i :: 0 <= i < |fetched| && fetched[i].stage.None? ==> i !in idx
  {
    var names := StageNames(stages);
    idx := FilterSelects(fetched, InStagesOf(names));
  }

  /** `leads(p, "x")` and `leads(p, ["x"])` select the same leads. This holds
      by the definition of `StageNames`, which turns a lone name into the
      one-element list holding it; the lemma records that consequence. */
  lemma OneStageActsAsList(fetched: seq<Lead>, name: string)
    ensures SelectLeads(fetched, OneStage(name)) == SelectLeads(fetched, StageList([name]))
    ensures SelectLeads(fetched, OneStage(name)) == Filter(fetched, InStagesOf([name]))
  {
  }

  lemma PipelineNamedExample()
    ensures var pipelines := [Pipeline("1", "Sales"), Pipeline("2", "Support")];
      PipelineNamed(pipelines, "Sales") == Success(Pipeline("1", "Sales")) &&
      PipelineNamed(pipelines, "Marketing") == Failure(PipelineNotFound("Marketing"))
  {
  }
}
