/** The records the CRM service returns, reduced to the keys the client reads
    (`_id`, `name`, `stage`, `content`), and the client's lookup failures. */
module Records {
  import opened Wrappers

  datatype Pipeline = Pipeline(id: string, name: string)

  datatype Stage = Stage(id: string, name: string)

  /** A lead's `stage` is absent (or null) for a lead not placed on a stage. */
  datatype Lead = Lead(id: string, stage: Option<Stage>)

  datatype Note = Note(id: string, content: string)

  datatype Field = Field(id: string)

  /** The two assertions of the client: a pipeline name that no pipeline has,
      and a stage name that no stage of the named pipeline has. Each carries
      the names its message reports. */
  datatype Error =
    | PipelineNotFound(pipeline: string)
    | StageNotFound(stage: string, pipeline: string)
}
